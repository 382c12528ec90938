# maildove SMTP delivery engine — a Dafny model

This project models the delivery engine of maildove, a TypeScript library that
sends mail directly to the destination domains' mail exchangers. It covers the
following:

- grouping recipients by domain (`groupRecipientsByDomain` and its copy
  `groupRecipients`);
- reading the `to`/`cc`/`bcc` address lists (`getAddresses`);
- MX selection (`resolveMX`): an override host, or the resolver's records
  sorted stably by priority;
- the exchange failover loop (`tryConnect`);
- the per-session SMTP client in `sendToSMTP`:
  - the command queue;
  - the framing of inbound data into reply lines and multi-line replies
    (the `data` handler and `onLine`);
  - the reply-code state machine `response`, with its STARTTLS flags;
- the per-domain fan-out of `sendmail`.

Modules, one file each:

- `Wrappers` — `Option` and `Result`.
- `Strings` — CRLF splitting and joining: `String.prototype.split` as `Split`,
  plus the lossless-framing lemmas.
- `WordSearch` — the regular-expression tests `/\besmtp\b/i` and
  `/\bSTARTTLS\b/i`, with a reference definition ("some index matches").
- `JsParseInt` — JavaScript `parseInt` without a radix (white space, sign, `0x`,
  longest digit prefix, `NaN` as `None`).
- `EmailUtils` — the recipient grouper, and the grouping as the source writes it
  over a plain JavaScript object (see Findings).
- `Mx` — `resolveMX` with the in-place array sort, a reference stable sort, and
  `tryConnect`.
- `Smtp` — the command queue, and class `Session`. Its fields are the closure
  variables `step`, `upgraded`, `isUpgradeInProgress`, `consoleinStep`, `msg` and
  `data`. Its methods are `Response`, `OnLine` and `OnData`. Each method is proved
  equal to a ghost function (`Step`, `LineStep`, `FeedLines`), and the
  protocol-level lemmas are stated over those functions. What a session does to
  its socket is a list of `Effect`s: a written line, `end()`, or a thrown error
  carrying the code and reply text.
- `MailDove` — the options and their defaults, `getAddresses`, `sendToSMTP` up to
  the fresh session, and `sendmail`.

External pieces are parameters:

- the RFC 5322 address parser: `string -> Option<ParsedAddress>`;
- the DNS MX lookup: `string -> Result<seq<MXRecord>, string>`;
- whether a TCP connection to a host and port succeeds: `(string, int) -> bool`;
- the MIME composer: `Mail -> string`;
- the DKIM signer: `DkimRequest -> string`.

Where the repository's documented behaviour and its code differ, the model follows
the code:

- `sendmail` returns nothing and never fails because no domain succeeded. Each
  failed domain is only logged. The model returns the list of per-domain attempts
  (`MailDove.Attempt`), so the logged outcomes are visible.
- `sendToSMTP` does not wait for the session to finish. The `await` in `sendmail`
  returns once the queue is built and the socket handlers are attached. The model
  therefore ends an attempt with a freshly initialised `Smtp.Session`.
- An empty MX list from the resolver is not an error in `resolveMX`. `tryConnect(0)`
  then throws "Could not connect to any SMTP server for …", which `sendmail`
  catches and logs. The model gives the same outcome.
- `rejectUnauthorized || true` is always true, whatever the option says.
- 251 stops without writing exactly when `step` is the index of the last queue
  entry (the empty placeholder). Otherwise it advances like 250.
- `isUpgradeInProgress` is never reset. A later 220 repeats the TLS branch.

## Model

| member | source | states |
|---|---|---|
| Smtp.BuildQueue | src/maildove.ts:197-204 | the queue is `MAIL FROM:<from>`, one `RCPT TO:<r>` per recipient in order, then `DATA`, `QUIT` and `""`, so its length is the recipient count plus 4 |
| Smtp.Session.constructor | src/maildove.ts:188-204 | a session starts with empty `data` and `msg`, cursor 0, no upgrade, and the queue of its envelope |
| Smtp.Session.Response | src/maildove.ts:206-317 | the new flags and the writes equal `Step` of the old flags: the cases for 220 (first greeting or re-greeting after STARTTLS), 221, 235/250 (STARTTLS once or the next command), 251, 354, 334, and any other code of 400 or more (end and throw, nothing advances); `msg` and `data` untouched |
| Smtp.Session.OnLine | src/maildove.ts:153-165 | a line whose index 3 is not a space is only appended with its CRLF; a final line hands `msg` plus the line to `response` with `parseInt` of its first three characters and then clears `msg`, unless `response` threw |
| Smtp.Session.OnData | src/maildove.ts:174-182 | the state and effects equal `FeedLines` over the complete lines of `data + chunk`; on success the kept fragment has no CRLF and the terminated lines plus the fragment give back `data + chunk`; after a throw `data` holds the whole concatenation |
| Smtp.Session.DispatchLines | src/maildove.ts:178-180 | the loop feeds the lines to `onLine` in order and stops at the first throw |
| Smtp.FeedConcat | src/maildove.ts:174-182 | feeding two batches of complete lines one after the other equals feeding their concatenation; after a throw in the first batch the second is never read |
| Smtp.ContinuationLines | src/maildove.ts:156-158 | continuation lines cause no reaction and no flag change; `msg` grows by each line and its CRLF |
| Smtp.AfterContinuation | src/maildove.ts:153-165 | the line after continuation lines meets the whole accumulated reply |
| Smtp.MultiLineReply | src/maildove.ts:153-165 | a multi-line reply reaches `response` once, with the code of its last line and all its lines, each ending in CRLF; `msg` is empty afterwards unless `response` threw |
| Smtp.DigitReplyCode | src/maildove.ts:161 | the code of a line starting with three digits is the number they spell |
| Smtp.StepFollowsQueue | src/maildove.ts:265-292 | each reply moves the cursor by at most one; when it moves, the command under the old cursor is written; only 250/235 past the STARTTLS offer and 251 short of the last entry move it |
| Smtp.LineStepNoReset | src/maildove.ts:153-165 | one line never decreases the cursor or the 334 counter, and never clears `upgraded` or `isUpgradeInProgress` |
| Smtp.FlagsNoReset | src/maildove.ts:174-182 | the same over any sequence of lines |
| Smtp.NoStartTlsAfterUpgrade | src/maildove.ts:267-279 | once upgraded, whether or not the upgrade went through STARTTLS, no reply changes the in-progress flag or clears `upgraded`, so no second STARTTLS negotiation starts |
| Smtp.PlainTransaction | src/maildove.ts:247-301 | with a greeting that does not name ESMTP, the replies 220, 250, 250, 250, 354, 250, 221 produce HELO, MAIL FROM, RCPT TO, DATA, body, "", ".", QUIT and the end of the connection |
| Smtp.StartTlsUpgrade | src/maildove.ts:208-282 | with ESMTP and STARTTLS offered and wanted: EHLO, STARTTLS, EHLO again on the new 220, and only then MAIL FROM |
| Strings.Framing | src/maildove.ts:176-181 | the pieces of a CRLF split but the last, each terminated, followed by the last piece, give back the input, and the last piece holds no CRLF |
| Strings.JoinSplit | src/maildove.ts:176 | joining the pieces of a split with the separator gives back the string |
| Strings.SplitPiecesAvoidSeparator | src/maildove.ts:176 | no piece of a split contains the separator |
| Strings.JoinAsTerminated | src/maildove.ts:176-181 | a join is the terminated pieces but the last, followed by the last piece |
| Strings.TerminatedAppend | src/maildove.ts:156 | terminating two batches of lines is the concatenation of terminating each |
| WordSearch.HasWordMeans | src/maildove.ts:249 | the search succeeds exactly when the word matches at some index, ignoring ASCII case, with a word boundary on both sides |
| WordSearch.FindFromMeans | src/maildove.ts:269 | the search from index `i` succeeds exactly when the word matches at some index at or after `i` |
| JsParseInt.TrimStartMeans | src/maildove.ts:161 | `parseInt` first drops the leading white space: every dropped character is white space, and what is left is the rest of the string, starting with a character that is not |
| JsParseInt.DigitPrefixMeans | src/maildove.ts:161 | the digits read are the longest prefix made of digits |
| JsParseInt.ThreeDigits | src/maildove.ts:161 | three decimal digits parse to the number they spell |
| JsParseInt.NoDigitIsNaN | src/maildove.ts:161 | a string whose first non-blank character is neither a sign nor a digit parses to NaN, which matches no reply case |
| EmailUtils.GroupRecipientsByDomain | src/email-utils/index.ts:9-23 | keys are the mailbox domains in order of first appearance; a key exists exactly when its list is non-empty; each list holds the recipients at that domain, unchanged, in input order (`groupRecipients` at src/maildove.ts:65-75, which `sendmail` calls, is the same loop) |
| EmailUtils.DomainsExactlyNonEmpty | src/email-utils/index.ts:17 | a domain is a key exactly when some recipient parses as a mailbox at it |
| EmailUtils.DomainsDistinct | src/email-utils/index.ts:17 | no domain is a key twice |
| EmailUtils.MembersExactly | src/email-utils/index.ts:14-19 | a recipient is in a domain's group exactly when it is an input that parses as a mailbox at that domain; recipients that do not parse, or parse as a group, are in no group |
| EmailUtils.MembersCountOccurrences | src/email-utils/index.ts:17-19 | duplicates are kept: a recipient occurs in its group as often as in the input |
| EmailUtils.GroupSizesSum | src/email-utils/index.ts:12-22 | the group sizes add up to the number of inputs that parse as a mailbox |
| EmailUtils.GroupAsWrittenAgrees | src/email-utils/index.ts:17 | the grouping on a plain object throws exactly when some mailbox domain names an `Object.prototype` property, and otherwise equals the intended grouping |
| EmailUtils.PrototypeDomainCounterexample | src/email-utils/index.ts:17 | the single recipient `user@constructor` makes the written grouping throw |
| Mx.SortByPriority | src/maildove.ts:111 | the array ends sorted ascending by priority, and records of equal priority keep their order |
| Mx.SinkInto | src/maildove.ts:111 | one insertion pass of the sort: given a sorted prefix before index i, the prefix through i ends sorted and records of equal priority keep their order |
| Mx.ResolveMX | src/maildove.ts:102-117 | a non-empty override host gives the single record with priority 1; a lookup failure gives "Failed to resolve MX for <domain>: <error>"; otherwise the stable sort of the records, equal to the reference sort |
| Mx.PrioritySortedIsStableSort | src/maildove.ts:111 | the reference insertion sort is sorted, keeps the ties and keeps the length |
| Mx.StableSortUnique | src/maildove.ts:111 | two sorted lists with the same ties are equal, so the stable sort's result is unique |
| Mx.SameTiesIsPermutation | src/maildove.ts:111 | a list with the same ties as another is a permutation of it |
| Mx.FirstAccepting | src/maildove.ts:133-150 | the index found is the first at or after the start whose host accepts, or the end of the list when none does |
| Mx.TryConnect | src/maildove.ts:133-150 | candidates are tried in index order until one connects; the result is that index, with all earlier hosts refused, or "Could not connect to any SMTP server for <domain>" after every host was tried |
| MailDove.Configure | src/maildove.ts:54-63 | port 25 when absent or 0, otherwise as given; the override host as given; DKIM and STARTTLS only when set to true; empty key and selector by default; `rejectUnauthorized` always true; empty TLS files by default |
| MailDove.GetAddresses | src/maildove.ts:82-95 | a string is split on commas; the result is the parsed address of every item that parses as a mailbox, in order |
| MailDove.MailboxAddressesExactly | src/maildove.ts:88-93 | one address per mailbox item, and an address is in the result exactly when some item parses as a mailbox with that address |
| MailDove.CommaListPieces | src/maildove.ts:84-86 | the comma-separated pieces contain no comma and joined with commas give back the string |
| MailDove.CollectRecipients | src/maildove.ts:327-339 | the recipients are the `to`, then the `cc`, then the `bcc` addresses, each list skipped when absent or empty |
| MailDove.FieldRecipients | src/maildove.ts:328-330 | one address field contributes its mailbox addresses when given (present and not the empty string) and nothing otherwise |
| MailDove.PreparedMessage | src/maildove.ts:343-358 | a sender exists exactly when `from` and its address both parse as mailboxes; the source host is the domain of the address; the composed message is sent unchanged, after the DKIM signature and CRLF when signing is on |
| MailDove.SendToSMTP | src/maildove.ts:128-204 | a failed resolution or failover gives its error; otherwise a fresh session on the first accepting exchange, for the domain's recipients and the shared message, in its initial state |
| MailDove.AttemptAll | src/maildove.ts:360-367 | one attempt per group key, in key order, each failure logged as "Could not send email to <domain>: Error: <error>" |
| MailDove.SendMail | src/maildove.ts:326-370 | nothing is attempted without a parsable sender; otherwise the attempts for the domains of the gathered recipients |
| MailDove.AttemptsPerDomain | src/maildove.ts:360-367 | every domain is attempted exactly once, in order, and its outcome depends on that domain alone, so a failure never stops a later domain |

## Left out

- Sockets and TLS are not modelled: `createConnection`, `tls.connect`, `createSecureContext`, pause/resume, and listener removal and rewiring. They are I/O. Only their effect on the flags and on the written lines is kept, and writing a line stands for writing it followed by CRLF.
- The TLS-upgrade branch of 220 constructs the secure socket and then, as written, at once resumes the plaintext socket, sets `upgraded` and writes EHLO. Only the flag and the EHLO are modelled.
- Smtp.Session.Response: the thrown error's message `SMTP server responded with code: <code> + <msg>` is modelled as the code and the reply text, not as the formatted string.
- The DNS lookup, the address parser, the MIME composer and the DKIM signer are foreign calls. They are function parameters. `Buffer.from(..., 'utf8')` and `toString()` are treated as the identity.
- Async and promise semantics are not modelled. Neither are the throws from inside socket callbacks (`tryConnect` on an `error` event, and the `error` handler at src/maildove.ts:184-186, which rethrows). The model is sequential.
- The failover as wired is not modelled. `setEncoding` is called, and the `data` and `error` handlers are attached, only on the first socket, at src/maildove.ts:172-186. After a failover the new socket has no data handler, and the first socket's second `error` listener throws. Mx.TryConnect models the failover the loop describes: the first host that connects wins.
- EmailUtils.GroupRecipientsByDomain: the keys are listed in order of first appearance. The source's plain object `recipientGroups` lists integer-like keys first, in ascending order, so a domain such as `123` would come before the others there.
- MailDove.SendMail: uses the corrected grouping of the finding below. For a recipient at a domain named like an `Object.prototype` property (such as `constructor`), the source's `sendmail` rejects at src/maildove.ts:340, before anything is sent. The model instead attempts delivery to that domain. The as-written behaviour is `EmailUtils.GroupAsWritten`.
- Smtp.FeedConcat: covers batches of complete lines only. No lemma states that two `Smtp.Session.OnData` calls equal one call on the joined chunks when a chunk boundary falls inside a line or inside a CRLF.
- MailDove.SendMail: keys are attempted in insertion order. A JavaScript `for...in` lists integer-like keys first, in ascending order, so a purely numeric domain would be attempted earlier than modelled.
- MailDove.SendMail: sessions run concurrently in the source, because `sendToSMTP` is not awaited to completion. The model only records which exchange each domain's session was opened on.
- Strings are sequences of characters. JavaScript indexes UTF-16 code units, which differs only for characters outside the Basic Multilingual Plane.
- Regular expressions are modelled only for the two fixed patterns, through `WordSearch.HasWord`.
- The 334 branch is modelled only as far as the source goes: it increments `consoleinStep`, because AUTH is unimplemented.
- All `console.*` logging is left out, except the per-domain failure message, which is kept as the outcome of an abandoned attempt. src/logging.ts and tests/mdovetester.js are not part of this model.
- The body is written as given after 354. The source does no dot-stuffing, so the model does none either.
- `mail.from` and the address fields are modelled as strings or lists of strings. Nodemailer also accepts address objects, whose `String(...)` form the parser would then see.

## Findings

| source | as written | input that shows it | evidently intended | confidence | as-written member | corrected member |
|---|---|---|---|---|---|---|
| src/email-utils/index.ts:17 | the groups live in a plain object, so `recipientGroups[host]` for a new host named like an `Object.prototype` property is the inherited (truthy) value and `.push` on it throws a TypeError (the copy at src/maildove.ts:71 does the same, outside any `try`, so `sendmail` rejects) | one recipient `user@constructor` that parses as a mailbox at domain `constructor` | a new host always starts an empty list, so the recipient is grouped under `constructor` | not executed | EmailUtils.PrototypeDomainCounterexample | EmailUtils.GroupRecipientsByDomain |
