/** The `MailDove` engine: its options and their defaults, the address lists of a
    mail, one delivery attempt per destination domain (`sendToSMTP`: MX selection,
    failover, and a fresh SMTP session), and `sendmail`, which fans one composed
    message out to every domain. The address parser, the DNS resolver, the outcome
    of a connection attempt, the MIME composer and the DKIM signer are parameters. */
module MailDove {
  import opened Wrappers
  import opened Strings
  import opened EmailUtils
  import opened Mx
  import Smtp

  datatype TlsFiles = TlsFiles(key: string, cert: string)

  /** `MailDoveOptions`: every field may be left out. */
  datatype Options = Options(
    smtpPort: Option<int>, smtpHost: Option<string>, dkimEnabled: Option<bool>,
    dkimPrivateKey: Option<string>, dkimKeySelector: Option<string>, startTLS: Option<bool>,
    rejectUnauthorized: Option<bool>, tls: Option<TlsFiles>)

  /** The fields of a `MailDove` object; none of them changes after construction. */
  datatype Config = Config(
    smtpPort: int, smtpHost: Option<string>, dkimEnabled: bool,
    dkimPrivateKey: string, dkimKeySelector: string, startTLS: bool,
    rejectUnauthorized: bool, tls: TlsFiles)

  /** JavaScript's `x || d` on an optional number: absent and 0 are falsy. */
  function OrNumber(x: Option<int>, d: int): int
  {
    if x.Some? && x.value != 0 then x.value else d
  }

  /** `x || d` on an optional string: absent and "" are falsy. */
  function OrString(x: Option<string>, d: string): string
  {
    if x.Some? && x.value != "" then x.value else d
  }

  /** `x || d` on an optional boolean. */
  function OrBool(x: Option<bool>, d: bool): bool
  {
    if x.Some? && x.value then true else d
  }

  /** The constructor: each option or its default, except that
      `rejectUnauthorized || true` is true whatever was passed. */
  function Configure(o: Options): (c: Config)
    ensures c.smtpPort == (if o.smtpPort.None? || o.smtpPort == Some(0) then 25 else o.smtpPort.value)
    ensures c.smtpPort != 0
    ensures c.smtpHost == o.smtpHost
    ensures c.dkimEnabled <==> o.dkimEnabled == Some(true)
    ensures c.startTLS <==> o.startTLS == Some(true)
    ensures c.dkimPrivateKey == (if o.dkimPrivateKey.Some? then o.dkimPrivateKey.value else "")
    ensures c.dkimKeySelector == (if o.dkimKeySelector.Some? then o.dkimKeySelector.value else "")
    ensures c.rejectUnauthorized
    ensures c.tls == (if o.tls.Some? then o.tls.value else TlsFiles("", ""))
  {
    Config(
      smtpPort := OrNumber(o.smtpPort, 25),
      smtpHost := o.smtpHost,
      dkimEnabled := OrBool(o.dkimEnabled, false),
      dkimPrivateKey := OrString(o.dkimPrivateKey, ""),
      dkimKeySelector := OrString(o.dkimKeySelector, ""),
      startTLS := OrBool(o.startTLS, false),
      rejectUnauthorized := OrBool(o.rejectUnauthorized, true),
      tls := if o.tls.Some? then o.tls.value else TlsFiles("", ""))
  }

  /** An address field of a mail: a list of address strings, or one string of
      comma-separated addresses. */
  datatype AddressList = Many(items: seq<string>) | One(text: string)

  /** The address strings `getAddresses` parses one by one. */
  function Items(addresses: AddressList): seq<string>
  {
    match addresses
    case Many(items) => items
    case One(text) => Split(text, ",")
  }

  /** The addresses of the items that parse as a mailbox, in item order. */
  function MailboxAddresses(items: seq<string>, parse: string -> Option<ParsedAddress>): seq<string>
  {
    if items == [] then []
    else
      var p := parse(items[|items| - 1]);
      MailboxAddresses(items[..|items| - 1], parse) + (if IsMailbox(p) then [p.value.address] else [])
  }

  /** `getAddresses(addresses)` */
  method GetAddresses(addresses: AddressList, parse: string -> Option<ParsedAddress>) returns (results: seq<string>)
    ensures results == MailboxAddresses(Items(addresses), parse)
  {
    var items := if addresses.Many? then addresses.items else Split(addresses.text, ",");
    results := [];
    var i := 0;
    while i < |items|
      invariant 0 <= i <= |items|
      invariant results == MailboxAddresses(items[..i], parse)
    {
      assert items[..i + 1][..i] == items[..i];
      var parsed := parse(items[i]);
      if parsed.Some? && parsed.value.Mailbox? {
        results := results + [parsed.value.address];
      }
      i := i + 1;
    }
    assert items[..i] == items;
  }

  /** One address per mailbox item: nothing else is kept, and every mailbox is. */
  lemma {:induction false} MailboxAddressesExactly(items: seq<string>, parse: string -> Option<ParsedAddress>)
    ensures |MailboxAddresses(items, parse)| == MailboxCount(items, parse)
    ensures forall x :: x in MailboxAddresses(items, parse) <==>
      exists i :: 0 <= i < |items| && IsMailbox(parse(items[i])) && parse(items[i]).value.address == x
  {
    if items != [] {
      var init := items[..|items| - 1];
      MailboxAddressesExactly(init, parse);
      forall x ensures x in MailboxAddresses(items, parse) <==>
        exists i :: 0 <= i < |items| && IsMailbox(parse(items[i])) && parse(items[i]).value.address == x
      {
        if x in MailboxAddresses(init, parse) {
          var i :| 0 <= i < |init| && IsMailbox(parse(init[i])) && parse(init[i]).value.address == x;
          assert items[i] == init[i];
        }
        if exists i :: 0 <= i < |items| && IsMailbox(parse(items[i])) && parse(items[i]).value.address == x {
          var i :| 0 <= i < |items| && IsMailbox(parse(items[i])) && parse(items[i]).value.address == x;
          if i < |init| {
            assert init[i] == items[i];
          }
        }
      }
    }
  }

  /** A comma-separated string is cut into pieces without commas that, joined
      with commas again, give back the string. */
  lemma CommaListPieces(text: string)
    ensures Join(Items(One(text)), ",") == text
    ensures forall k :: 0 <= k < |Items(One(text))| ==> !Contains(Items(One(text))[k], ",")
  {
    JoinSplit(text, ",");
    SplitPiecesAvoidSeparator(text, ",");
  }

  datatype Mail = Mail(from: Option<string>, to: Option<AddressList>, cc: Option<AddressList>, bcc: Option<AddressList>)

  /** `if (mail.to)`: an absent field and the empty string are skipped. */
  predicate Given(field: Option<AddressList>)
  {
    field.Some? && field.value != One("")
  }

  function FieldAddresses(field: Option<AddressList>, parse: string -> Option<ParsedAddress>): seq<string>
  {
    if Given(field) then MailboxAddresses(Items(field.value), parse) else []
  }

  /** The recipients of `sendmail`: the `to`, then the `cc`, then the `bcc` addresses. */
  function AllRecipients(mail: Mail, parse: string -> Option<ParsedAddress>): seq<string>
  {
    FieldAddresses(mail.to, parse) + FieldAddresses(mail.cc, parse) + FieldAddresses(mail.bcc, parse)
  }

  /** `String(mail.from)` of an absent sender. */
  function SenderText(mail: Mail): string
  {
    if mail.from.Some? then mail.from.value else "undefined"
  }

  /** What the DKIM signer is given. */
  datatype DkimRequest = DkimRequest(message: string, privateKey: string, keySelector: string, domainName: string)

  /** The envelope sender, the source host (the sender's domain) and the message text
      that every session of one `sendmail` call shares. */
  datatype Envelope = Envelope(from: string, srcHost: string, message: string)

  /** The sender is the address of the parsed `from`; the source host is the
      domain of that address parsed again. Otherwise nothing is sent. */
  function Prepare(config: Config, mail: Mail, parse: string -> Option<ParsedAddress>,
                   compose: Mail -> string, sign: DkimRequest -> string): Option<Envelope>
  {
    var first := parse(SenderText(mail));
    if !IsMailbox(first) then None
    else
      var from := first.value.address;
      var second := parse(from);
      if !IsMailbox(second) then None
      else
        var srcHost := second.value.domain;
        var composed := compose(mail);
        var message :=
          if config.dkimEnabled then sign(DkimRequest(composed, config.dkimPrivateKey, config.dkimKeySelector, srcHost)) + Smtp.CRLF + composed
          else composed;
        Some(Envelope(from, srcHost, message))
  }

  /** The composed message goes out unchanged, after the DKIM signature and a CRLF
      when signing is on; the signature is asked for with the sender's domain. */
  lemma PreparedMessage(config: Config, mail: Mail, parse: string -> Option<ParsedAddress>,
                        compose: Mail -> string, sign: DkimRequest -> string)
    ensures var e := Prepare(config, mail, parse, compose, sign);
      && (e.Some? <==> IsMailbox(parse(SenderText(mail))) && IsMailbox(parse(parse(SenderText(mail)).value.address)))
      && (e.Some? ==>
            && e.value.from == parse(SenderText(mail)).value.address
            && e.value.srcHost == parse(e.value.from).value.domain
            && |compose(mail)| <= |e.value.message|
            && e.value.message[|e.value.message| - |compose(mail)|..] == compose(mail)
            && (!config.dkimEnabled ==> e.value.message == compose(mail))
            && (config.dkimEnabled ==>
                  var signature := sign(DkimRequest(compose(mail), config.dkimPrivateKey, config.dkimKeySelector, e.value.srcHost));
                  e.value.message[..|signature| + 2] == signature + Smtp.CRLF
                  && e.value.message[|signature| + 2..] == compose(mail)))
  {
  }

  /** What `sendmail` logs for a domain whose attempt threw. */
  function CouldNotSend(domain: string, error: string): string
  {
    "Could not send email to " + domain + ": Error: " + error
  }

  /** The outcome of the attempt for one domain: a session connected to the chosen
      exchange for the domain's recipients, or the logged reason it was abandoned. */
  datatype Attempt = Connected(domain: string, exchange: string, recipients: seq<string>) | Abandoned(domain: string, log: string)

  /** `sendToSMTP` as a function of the domain: the candidates of `resolveMX`, then
      the first of them that accepts a connection on the configured port. */
  function AttemptFor(config: Config, domain: string, recipients: seq<string>,
                      lookup: string -> Result<seq<MXRecord>, string>, connects: (string, int) -> bool): Attempt
  {
    match Candidates(config.smtpHost, domain, lookup)
    case Failure(e) => Abandoned(domain, CouldNotSend(domain, e))
    case Success(candidates) =>
      var k := FirstAccepting(candidates, config.smtpPort, connects, 0);
      if k < |candidates| then Connected(domain, candidates[k].exchange, recipients)
      else Abandoned(domain, CouldNotSend(domain, "Could not connect to any SMTP server for " + domain))
  }

  /** `sendToSMTP(domain, srcHost, from, recipients, body)` up to the point where the
      session waits for the server's greeting. */
  method SendToSMTP(config: Config, domain: string, srcHost: string, from: string, recipients: seq<string>,
                    body: string, lookup: string -> Result<seq<MXRecord>, string>, connects: (string, int) -> bool)
    returns (r: Result<Smtp.Session, string>)
    ensures r.Failure? ==> AttemptFor(config, domain, recipients, lookup, connects) == Abandoned(domain, CouldNotSend(domain, r.error))
    ensures r.Success? ==>
      var s := r.value;
      && fresh(s)
      && AttemptFor(config, domain, recipients, lookup, connects) == Connected(domain, s.exchange, recipients)
      && s.domain == domain && s.srcHost == srcHost && s.body == body && s.startTLS == config.startTLS
      && Smtp.IsCommandQueue(s.queue, from, recipients)
      && s.step == 0 && !s.upgraded && !s.isUpgradeInProgress && s.consoleinStep == 0
      && s.msg == "" && s.data == ""
  {
    var mx := ResolveMX(config.smtpHost, domain, lookup);
    if mx.Failure? {
      return Failure(mx.error);
    }
    var k, tried := TryConnect(mx.value, config.smtpPort, domain, connects);
    if k.Failure? {
      return Failure(k.error);
    }
    var s := new Smtp.Session(domain, mx.value[k.value].exchange, srcHost, from, recipients, body, config.startTLS);
    return Success(s);
  }

  /** One attempt per domain of `domains`, in that order, each for the recipients
      grouped under it. */
  function Attempts(config: Config, rs: seq<string>, parse: string -> Option<ParsedAddress>, domains: seq<string>,
                    lookup: string -> Result<seq<MXRecord>, string>, connects: (string, int) -> bool): seq<Attempt>
  {
    if domains == [] then []
    else
      var d := domains[|domains| - 1];
      Attempts(config, rs, parse, domains[..|domains| - 1], lookup, connects)
        + [AttemptFor(config, d, Members(rs, parse, d), lookup, connects)]
  }

  /** The start of `sendmail`: the addresses of `to`, `cc` and `bcc`, concatenated. */
  method CollectRecipients(mail: Mail, parse: string -> Option<ParsedAddress>) returns (recipients: seq<string>)
    ensures recipients == AllRecipients(mail, parse)
  {
    var to := FieldRecipients(mail.to, parse);
    var cc := FieldRecipients(mail.cc, parse);
    var bcc := FieldRecipients(mail.bcc, parse);
    recipients := to + cc + bcc;
  }

  /** One `if (field) recipients.push(...getAddresses(field))` step of `sendmail`. */
  method FieldRecipients(field: Option<AddressList>, parse: string -> Option<ParsedAddress>) returns (addresses: seq<string>)
    ensures addresses == FieldAddresses(field, parse)
  {
    addresses := [];
    if Given(field) {
      addresses := GetAddresses(field.value, parse);
    }
  }

  /** The `for (let domain in groups)` loop of `sendmail`: one `sendToSMTP` per
      group, each failure caught and logged. */
  method AttemptAll(config: Config, recipients: seq<string>, parse: string -> Option<ParsedAddress>, groups: Groups,
                    e: Envelope, lookup: string -> Result<seq<MXRecord>, string>, connects: (string, int) -> bool)
    returns (attempts: seq<Attempt>)
    requires forall d :: d in groups.keys ==> d in groups.members && groups.members[d] == Members(recipients, parse, d)
    ensures attempts == Attempts(config, recipients, parse, groups.keys, lookup, connects)
  {
    attempts := [];
    var i := 0;
    while i < |groups.keys|
      invariant 0 <= i <= |groups.keys|
      invariant attempts == Attempts(config, recipients, parse, groups.keys[..i], lookup, connects)
    {
      var domain := groups.keys[i];
      assert groups.keys[..i + 1][..i] == groups.keys[..i];
      var r := SendToSMTP(config, domain, e.srcHost, e.from, groups.members[domain], e.message, lookup, connects);
      var outcome := match r
        case Success(s) => Connected(domain, s.exchange, groups.members[domain])
        case Failure(error) => Abandoned(domain, CouldNotSend(domain, error));
      attempts := attempts + [outcome];
      i := i + 1;
    }
    assert groups.keys[..i] == groups.keys;
  }

  /** `sendmail(mail)`: gather the recipients, group them by domain, prepare the
      message, and attempt every domain once, a failure at one domain being logged
      without stopping the others. */
  method SendMail(config: Config, mail: Mail, parse: string -> Option<ParsedAddress>,
                  compose: Mail -> string, sign: DkimRequest -> string,
                  lookup: string -> Result<seq<MXRecord>, string>, connects: (string, int) -> bool)
    returns (prepared: Option<Envelope>, attempts: seq<Attempt>)
    ensures prepared == Prepare(config, mail, parse, compose, sign)
    ensures attempts == if prepared.None? then []
      else Attempts(config, AllRecipients(mail, parse), parse, Domains(AllRecipients(mail, parse), parse), lookup, connects)
  {
    var recipients := CollectRecipients(mail, parse);
    var groups := GroupRecipientsByDomain(recipients, parse);
    prepared, attempts := None, [];
    var first := parse(SenderText(mail));
    if first.Some? && first.value.Mailbox? {
      var from := first.value.address;
      var second := parse(from);
      if second.Some? && second.value.Mailbox? {
        var srcHost := second.value.domain;
        var message := compose(mail);
        if config.dkimEnabled {
          var signature := sign(DkimRequest(message, config.dkimPrivateKey, config.dkimKeySelector, srcHost));
          message := signature + Smtp.CRLF + message;
        }
        prepared := Some(Envelope(from, srcHost, message));
        attempts := AttemptAll(config, recipients, parse, groups, prepared.value, lookup, connects);
      }
    }
  }

  /** Every domain is attempted exactly once, in order, and what happens at one
      domain depends on that domain alone, so a failure never stops a later one. */
  lemma {:induction false} AttemptsPerDomain(config: Config, rs: seq<string>, parse: string -> Option<ParsedAddress>,
                                             domains: seq<string>, lookup: string -> Result<seq<MXRecord>, string>,
                                             connects: (string, int) -> bool)
    ensures var a := Attempts(config, rs, parse, domains, lookup, connects);
      && |a| == |domains|
      && forall k :: 0 <= k < |domains| ==>
           a[k] == AttemptFor(config, domains[k], Members(rs, parse, domains[k]), lookup, connects) && a[k].domain == domains[k]
  {
    if domains != [] {
      var init := domains[..|domains| - 1];
      AttemptsPerDomain(config, rs, parse, init, lookup, connects);
      forall k | 0 <= k < |init| ensures domains[k] == init[k] {
      }
    }
  }
}
