/**
 * The two core API views with logic of their own: the contact form, which
 * validates the submission, checks the mail configuration and hands a
 * message to the mail service; and the home payload, which picks the
 * featured projects and skills. The mail service is an input: `send(mail)`
 * is what the send call produced.
 */
module CoreViews {
  import opened Wrappers
  import opened Text
  import opened CoreModels

  /** Python truthiness of an optional string: present and non-empty. */
  predicate Truthy(v: Option<string>) {
    v.Some? && v.value != ""
  }

  datatype ContactForm = ContactForm(name: Option<string>, email: Option<string>, message: Option<string>)

  /** The four mail settings read from the environment. */
  datatype MailConfig = MailConfig(
    apiKey: Option<string>, apiSecret: Option<string>,
    senderEmail: Option<string>, receiverEmail: Option<string>)

  datatype Mail = Mail(
    fromEmail: string, fromName: string,
    toEmail: string, toName: string,
    replyToEmail: string, replyToName: string,
    subject: string, textPart: string, htmlPart: string)

  /**
   * What the send call produced: an HTTP status and whether the body parses
   * as JSON (the error branch decodes it), or an exception.
   */
  datatype SendResult = Status(code: int, jsonBody: bool) | ConnectionFailed

  /** An HTTP response whose JSON body has the single entry `key: value`. */
  datatype Response = Response(status: int, key: string, value: string)

  predicate FieldsPresent(form: ContactForm) {
    Truthy(form.name) && Truthy(form.email) && Truthy(form.message)
  }

  predicate ConfigComplete(c: MailConfig) {
    Truthy(c.apiKey) && Truthy(c.apiSecret) && Truthy(c.senderEmail) && Truthy(c.receiverEmail)
  }

  const MissingFields: Response := Response(400, "error", "All fields are required.")
  const MissingConfig: Response := Response(503, "error", "Email service configuration missing.")
  const Sent: Response := Response(200, "status", "sent")
  const SendFailed: Response := Response(500, "error", "Failed to send email via Mailjet")
  const Unreachable: Response := Response(503, "error", "Could not connect to email service.")

  const Indent: string := "                        "
  const ClosingIndent: string := "                    "

  function TextPart(name: string, email: string, message: string): string {
    "Name: " + name + "\nEmail: " + email + "\n\nMessage:\n" + message
  }

  function HtmlPart(name: string, email: string, message: string): string {
    "\n" + Indent + "<h3>New Message from Portfolio</h3>\n"
    + Indent + "<p><b>Name:</b> " + name + "</p>\n"
    + Indent + "<p><b>Email:</b> " + email + "</p>\n"
    + Indent + "<br/>\n"
    + Indent + "<p><b>Message:</b></p>\n"
    + Indent + "<p>" + message + "</p>\n"
    + ClosingIndent
  }

  /** The message handed to the mail service. */
  function MailFor(name: string, email: string, message: string, sender: string, receiver: string): (m: Mail)
    ensures m.fromEmail == sender && m.fromName == "Portfolio Bot"
    ensures m.toEmail == receiver && m.toName == "Govardhan"
    ensures m.replyToEmail == email && m.replyToName == name
    ensures StartsWith(m.subject, "New Contact: ") && m.subject[|"New Contact: "|..] == name
  {
    Mail(sender, "Portfolio Bot", receiver, "Govardhan", email, name,
         "New Contact: " + name, TextPart(name, email, message), HtmlPart(name, email, message))
  }

  /**
   * `ContactAPIView.post`: fields first, then configuration, then the send.
   * A failed send whose body is not JSON raises while the error is logged,
   * inside the `try`, and so answers like a connection failure.
   */
  function Contact(form: ContactForm, config: MailConfig, send: Mail -> SendResult): (r: Response)
    ensures !FieldsPresent(form) ==> r == MissingFields
    ensures FieldsPresent(form) && !ConfigComplete(config) ==> r == MissingConfig
    ensures FieldsPresent(form) && ConfigComplete(config) ==>
              var mail := MailFor(form.name.value, form.email.value, form.message.value,
                                  config.senderEmail.value, config.receiverEmail.value);
              match send(mail)
              case Status(code, json) =>
                r == (if code == 200 then Sent else if json then SendFailed else Unreachable)
              case ConnectionFailed => r == Unreachable
    ensures r.status in {200, 400, 500, 503}
  {
    if !FieldsPresent(form) then MissingFields
    else if !ConfigComplete(config) then MissingConfig
    else
      var mail := MailFor(form.name.value, form.email.value, form.message.value,
                          config.senderEmail.value, config.receiverEmail.value);
      match send(mail)
      case Status(code, json) => if code == 200 then Sent else if json then SendFailed else Unreachable
      case ConnectionFailed => Unreachable
  }

  /** A submission with a missing field is rejected whatever the configuration, and nothing is sent. */
  lemma FieldsCheckedFirst(form: ContactForm, c1: MailConfig, c2: MailConfig,
                           s1: Mail -> SendResult, s2: Mail -> SendResult)
    requires !FieldsPresent(form)
    ensures Contact(form, c1, s1) == Contact(form, c2, s2) == MissingFields
  {
  }

  /** With a setting missing the mail service is never called: any sender gives the same 503. */
  lemma NoSendWithoutConfig(form: ContactForm, config: MailConfig, s1: Mail -> SendResult, s2: Mail -> SendResult)
    requires FieldsPresent(form) && !ConfigComplete(config)
    ensures Contact(form, config, s1) == Contact(form, config, s2) == MissingConfig
  {
  }

  /** Only a successful send reports "sent". */
  lemma SentOnlyOnSuccess(form: ContactForm, config: MailConfig, send: Mail -> SendResult)
    ensures Contact(form, config, send) == Sent <==>
              FieldsPresent(form) && ConfigComplete(config)
              && var res := send(MailFor(form.name.value, form.email.value, form.message.value,
                                         config.senderEmail.value, config.receiverEmail.value));
                 res.Status? && res.code == 200
  {
  }

  /**
   * A refused send answers 500 only when its body decodes; otherwise the
   * decoding error is caught with the connection errors and answers 503.
   */
  lemma FailedSendStatus(form: ContactForm, config: MailConfig, send: Mail -> SendResult)
    requires FieldsPresent(form) && ConfigComplete(config)
    requires var res := send(MailFor(form.name.value, form.email.value, form.message.value,
                                     config.senderEmail.value, config.receiverEmail.value));
             res.Status? && res.code != 200
    ensures var res := send(MailFor(form.name.value, form.email.value, form.message.value,
                                    config.senderEmail.value, config.receiverEmail.value));
            Contact(form, config, send) == (if res.jsonBody then SendFailed else Unreachable)
            && Contact(form, config, send).status == (if res.jsonBody then 500 else 503)
  {
  }

  /** Reads one `head + field + "\n"` line off the front of `t`: the field and what follows. */
  function ReadLine(t: string, head: string): Option<(string, string)> {
    if !StartsWith(t, head) then None
    else
      var s := t[|head|..];
      var field := FirstField(s, '\n');
      if |field| == |s| then None else Some((field, s[|field| + 1..]))
  }

  /** Reads the name, e-mail and message back out of a text part. */
  function ParseTextPart(t: string): Option<(string, string, string)> {
    match ReadLine(t, "Name: ")
    case None => None
    case Some((name, rest1)) =>
      match ReadLine(rest1, "Email: ")
      case None => None
      case Some((email, rest2)) =>
        if StartsWith(rest2, "\nMessage:\n") then Some((name, email, rest2[10..])) else None
  }

  lemma ReadLineOf(head: string, field: string, rest: string)
    requires '\n' !in field
    ensures ReadLine(head + field + "\n" + rest, head) == Some((field, rest))
  {
    var t := head + field + "\n" + rest;
    assert t[..|head|] == head;
    assert t[|head|..] == field + ['\n'] + rest;
    FirstFieldConcat(field, '\n', rest);
  }

  /** The text part determines the submission when name and e-mail are single lines. */
  lemma TextPartRoundTrip(name: string, email: string, message: string)
    requires '\n' !in name && '\n' !in email
    ensures ParseTextPart(TextPart(name, email, message)) == Some((name, email, message))
  {
    var tail2 := "\nMessage:\n" + message;
    var tail1 := "Email: " + email + "\n" + tail2;
    TextPartLines(name, email, message);
    ReadLineOf("Name: ", name, tail1);
    ReadLineOf("Email: ", email, tail2);
    assert StartsWith(tail2, "\nMessage:\n") && tail2[10..] == message;
  }

  lemma TextPartLines(name: string, email: string, message: string)
    ensures TextPart(name, email, message)
            == "Name: " + name + "\n" + ("Email: " + email + "\n" + ("\nMessage:\n" + message))
  {
  }

  /** The message appears in the HTML part verbatim, inside one paragraph. */
  lemma HtmlCarriesMessage(name: string, email: string, message: string)
    ensures Contains(HtmlPart(name, email, message), "<p>" + message + "</p>")
  {
    var before := "\n" + Indent + "<h3>New Message from Portfolio</h3>\n"
      + Indent + "<p><b>Name:</b> " + name + "</p>\n"
      + Indent + "<p><b>Email:</b> " + email + "</p>\n"
      + Indent + "<br/>\n"
      + Indent + "<p><b>Message:</b></p>\n"
      + Indent;
    var w := "<p>" + message + "</p>";
    var h := HtmlPart(name, email, message);
    assert h == before + w + "\n" + ClosingIndent;
    assert h[|before|..|before| + |w|] == w;
    assert OccursAt(h, w, |before|);
  }

  const HomeProjectLimit: nat := 3
  const HomeSkillLimit: nat := 8
  const HeroTitle: string := "Full-Stack Developer & DevOps Enthusiast"
  const AboutText: string := "I build scalable web apps and automate their deployment."

  /**
   * The home page's projects. `shuffled` is the featured-and-other projects
   * in the random order the database returned them.
   */
  function HomeProjects(shuffled: seq<Project>): (r: seq<Project>)
    ensures |r| <= HomeProjectLimit
    ensures forall p | p in r :: p.featured && p in shuffled
    ensures |r| <= |FeaturedProjects(shuffled)| && r == FeaturedProjects(shuffled)[..|r|]
    ensures multiset(r) <= multiset(shuffled)
    ensures |r| == HomeProjectLimit || r == FeaturedProjects(shuffled)
  {
    var fs := FeaturedProjects(shuffled);
    FeaturedProjectsCounts(shuffled);
    if |fs| <= HomeProjectLimit then fs
    else
      PrefixMultiset(fs, HomeProjectLimit);
      fs[..HomeProjectLimit]
  }

  lemma PrefixMultiset(xs: seq<Project>, k: nat)
    requires k <= |xs|
    ensures multiset(xs[..k]) <= multiset(xs)
  {
    assert xs == xs[..k] + xs[k..];
  }

  /** The home page's skills: the featured ones, or the first eight when none is featured. */
  function HomeSkills(skills: seq<Skill>): (r: seq<Skill>)
    ensures |r| <= |skills|
    ensures (exists s | s in skills :: s.isFeatured) ==>
              forall s :: multiset(r)[s] == if s.isFeatured then multiset(skills)[s] else 0
    ensures (forall s | s in skills :: !s.isFeatured) ==>
              |r| <= HomeSkillLimit && r == skills[..|r|] && (|r| == HomeSkillLimit || r == skills)
  {
    var fs := FeaturedSkills(skills);
    FeaturedSkillsCounts(skills);
    if fs != [] then
      assert fs[0] in fs;
      fs
    else if |skills| <= HomeSkillLimit then skills
    else skills[..HomeSkillLimit]
  }

  datatype HomeData = HomeData(featuredProjects: seq<Project>, skills: seq<Skill>, heroTitle: string, aboutText: string)

  function HomeDataOf(shuffled: seq<Project>, skills: seq<Skill>): (h: HomeData)
    ensures |h.featuredProjects| <= HomeProjectLimit
    ensures h.heroTitle == HeroTitle && h.aboutText == AboutText
  {
    HomeData(HomeProjects(shuffled), HomeSkills(skills), HeroTitle, AboutText)
  }
}
