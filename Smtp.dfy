/** One SMTP client session of `sendToSMTP`: the command queue, the framing of
    inbound data into reply lines and multi-line replies (RFC 5321 section 4.2),
    and the reply-code state machine `response`, including the flag changes and
    the re-greeting of a STARTTLS upgrade (RFC 3207 section 4.2). Sockets are not
    modelled: what a session does to its socket is a list of `Effect`s. */
module Smtp {
  import opened Wrappers
  import opened Strings
  import opened WordSearch
  import opened JsParseInt

  const CRLF: string := "\r\n"

  const SERVICE_READY := 220
  const BYE := 221
  const AUTH_SUCCESS := 235
  const OPERATION_OK := 250
  const FORWARD_NON_LOCAL_USER := 251
  const START_MAIL_BODY := 354
  const SERVER_CHALLENGE := 334
  const NEGATIVE_COMPLETION := 400

  /** `queue` is the command list of a session from `from` to `recipients`. */
  ghost predicate IsCommandQueue(queue: seq<string>, from: string, recipients: seq<string>)
  {
    && |queue| == |recipients| + 4
    && queue[0] == "MAIL FROM:<" + from + ">"
    && (forall i :: 0 <= i < |recipients| ==> queue[i + 1] == "RCPT TO:<" + recipients[i] + ">")
    && queue[|recipients| + 1] == "DATA"
    && queue[|recipients| + 2] == "QUIT"
    && queue[|recipients| + 3] == ""
  }

  /** The pushes that build `queue` before the first reply is read. */
  method BuildQueue(from: string, recipients: seq<string>) returns (queue: seq<string>)
    ensures IsCommandQueue(queue, from, recipients)
  {
    queue := ["MAIL FROM:<" + from + ">"];
    var i := 0;
    while i < |recipients|
      invariant 0 <= i <= |recipients|
      invariant |queue| == i + 1 && queue[0] == "MAIL FROM:<" + from + ">"
      invariant forall k :: 0 <= k < i ==> queue[k + 1] == "RCPT TO:<" + recipients[k] + ">"
    {
      queue := queue + ["RCPT TO:<" + recipients[i] + ">"];
      i := i + 1;
    }
    queue := queue + ["DATA"];
    queue := queue + ["QUIT"];
    queue := queue + [""];
  }

  /** What the session does to its socket: `writeToSocket(line)` (which sends
      `line + CRLF`), `sock.end()`, or a thrown error carrying the reply code and text. */
  datatype Effect = Write(line: string) | End | Raise(code: int, text: string)

  /** `queue[step]`, which JavaScript reads as `undefined` past the end; written to
      the socket that becomes the text "undefined". */
  function QueueAt(queue: seq<string>, step: nat): string
  {
    if step < |queue| then queue[step] else "undefined"
  }

  /** The values a session's closures read but never change. */
  datatype SessionContext = SessionContext(queue: seq<string>, srcHost: string, body: string, startTLS: bool)

  /** The closure variables `step`, `upgraded`, `isUpgradeInProgress` and `consoleinStep`. */
  datatype ProtocolFlags = ProtocolFlags(step: nat, upgraded: bool, upgrading: bool, authStep: nat)

  datatype Reaction = Reaction(flags: ProtocolFlags, effects: seq<Effect>)

  predicate Raises(effects: seq<Effect>)
  {
    |effects| > 0 && effects[|effects| - 1].Raise?
  }

  predicate Handled(c: int)
  {
    c == SERVICE_READY || c == BYE || c == AUTH_SUCCESS || c == OPERATION_OK
    || c == FORWARD_NON_LOCAL_USER || c == START_MAIL_BODY || c == SERVER_CHALLENGE
  }

  /** `response(code, msg)` as a function of the flags before it: the flags after it
      and what it does to the socket. `None` is the NaN that `parseInt` gives for a
      code field without digits, which matches no case. */
  ghost function Step(ctx: SessionContext, f: ProtocolFlags, code: Option<int>, text: string): Reaction
  {
    if code.None? then Reaction(f, [])
    else
      var c := code.value;
      if c == SERVICE_READY then
        if f.upgrading then Reaction(f.(upgraded := true), [Write("EHLO " + ctx.srcHost)])
        else if HasWord(text, "esmtp") then Reaction(f, [Write("EHLO " + ctx.srcHost)])
        else Reaction(f.(upgraded := true), [Write("HELO " + ctx.srcHost)])
      else if c == BYE then Reaction(f, [End])
      else if c == AUTH_SUCCESS || c == OPERATION_OK then
        if !f.upgraded && HasWord(text, "STARTTLS") && ctx.startTLS then
          Reaction(f.(upgrading := true), [Write("STARTTLS")])
        else Reaction(f.(upgraded := true, step := f.step + 1), [Write(QueueAt(ctx.queue, f.step))])
      else if c == FORWARD_NON_LOCAL_USER then
        if f.step == |ctx.queue| - 1 then Reaction(f, [])
        else Reaction(f.(step := f.step + 1), [Write(QueueAt(ctx.queue, f.step))])
      else if c == START_MAIL_BODY then Reaction(f, [Write(ctx.body), Write(""), Write(".")])
      else if c == SERVER_CHALLENGE then Reaction(f.(authStep := f.authStep + 1), [])
      else if c >= NEGATIVE_COMPLETION then Reaction(f, [End, Raise(c, text)])
      else Reaction(f, [])
  }

  /** A line ends a reply when its fourth character is a space (`250 OK`); a dash
      there (`250-SIZE`) continues the reply. */
  predicate IsFinalLine(line: string)
  {
    |line| > 3 && line[3] == ' '
  }

  /** `parseInt(line.substr(0, 3))` */
  function ReplyCode(line: string): Option<int>
  {
    ParseInt(if |line| >= 3 then line[..3] else line)
  }

  /** The flags and the reply accumulator `msg`. */
  datatype LineState = LineState(flags: ProtocolFlags, msg: string)

  /** The state after some lines, the effects they caused, and whether the last
      one made `response` throw. */
  datatype Run = Run(state: LineState, effects: seq<Effect>, aborted: bool)

  /** `onLine(line)`: append the line to `msg`; on a final line hand the whole reply
      to `response` and clear `msg`. A throw from `response` skips the clearing. */
  ghost function LineStep(ctx: SessionContext, s: LineState, line: string): Run
  {
    var text := s.msg + line + CRLF;
    if IsFinalLine(line) then
      var r := Step(ctx, s.flags, ReplyCode(line), text);
      if Raises(r.effects) then Run(LineState(r.flags, text), r.effects, true)
      else Run(LineState(r.flags, ""), r.effects, false)
    else Run(LineState(s.flags, text), [], false)
  }

  /** One more line after a run: nothing once a throw has stopped the lines. */
  ghost function Extend(ctx: SessionContext, prev: Run, line: string): Run
  {
    if prev.aborted then prev
    else
      var r := LineStep(ctx, prev.state, line);
      Run(r.state, prev.effects + r.effects, r.aborted)
  }

  /** `onLine` applied to each of `lines` in turn, stopping at the first throw. */
  ghost function FeedLines(ctx: SessionContext, s: LineState, lines: seq<string>): Run
  {
    if lines == [] then Run(s, [], false)
    else Extend(ctx, FeedLines(ctx, s, lines[..|lines| - 1]), lines[|lines| - 1])
  }

  /** A run followed by a run from the state it ends in. */
  function Then(first: Run, second: Run): Run
  {
    if first.aborted then first else Run(second.state, first.effects + second.effects, second.aborted)
  }

  /** The per-session closure state of `sendToSMTP` from the moment a connection
      to `exchange` exists. */
  class Session {
    const domain: string
    const exchange: string
    const srcHost: string
    const body: string
    const startTLS: bool
    const queue: seq<string>

    var step: nat
    var upgraded: bool
    var isUpgradeInProgress: bool
    var consoleinStep: nat
    var msg: string
    var data: string

    function Ctx(): SessionContext
    {
      SessionContext(queue, srcHost, body, startTLS)
    }

    function Flags(): ProtocolFlags
      reads this
    {
      ProtocolFlags(step, upgraded, isUpgradeInProgress, consoleinStep)
    }

    function State(): LineState
      reads this
    {
      LineState(Flags(), msg)
    }

    /** The initial buffers and flags, and the queue built from the envelope. */
    constructor (domain: string, exchange: string, srcHost: string, from: string,
                 recipients: seq<string>, body: string, startTLS: bool)
      ensures this.domain == domain && this.exchange == exchange && this.srcHost == srcHost
      ensures this.body == body && this.startTLS == startTLS
      ensures IsCommandQueue(queue, from, recipients)
      ensures step == 0 && !upgraded && !isUpgradeInProgress && consoleinStep == 0
      ensures msg == "" && data == ""
    {
      var q := BuildQueue(from, recipients);
      this.domain := domain;
      this.exchange := exchange;
      this.srcHost := srcHost;
      this.body := body;
      this.startTLS := startTLS;
      queue := q;
      step, upgraded, isUpgradeInProgress, consoleinStep := 0, false, false, 0;
      msg, data := "", "";
    }

    /** `response(code, msg)`: react to one complete reply. */
    method Response(code: Option<int>, text: string) returns (effects: seq<Effect>)
      modifies this
      ensures Reaction(Flags(), effects) == Step(Ctx(), old(Flags()), code, text)
      ensures msg == old(msg) && data == old(data)
      // 220, first greeting: EHLO to an ESMTP server, else HELO and no STARTTLS later.
      ensures code == Some(SERVICE_READY) && !old(isUpgradeInProgress) ==>
        && step == old(step) && !isUpgradeInProgress
        && (HasWord(text, "esmtp") ==> effects == [Write("EHLO " + srcHost)] && upgraded == old(upgraded))
        && (!HasWord(text, "esmtp") ==> effects == [Write("HELO " + srcHost)] && upgraded)
      // 220 after STARTTLS was sent: the session counts as upgraded and greets again.
      ensures code == Some(SERVICE_READY) && old(isUpgradeInProgress) ==>
        effects == [Write("EHLO " + srcHost)] && upgraded && isUpgradeInProgress && step == old(step)
      ensures code == Some(BYE) ==> effects == [End] && Flags() == old(Flags())
      // 235 or 250: STARTTLS once if offered and wanted, otherwise the next queued command.
      ensures code == Some(AUTH_SUCCESS) || code == Some(OPERATION_OK) ==>
        if !old(upgraded) && HasWord(text, "STARTTLS") && startTLS then
          && effects == [Write("STARTTLS")] && isUpgradeInProgress
          && step == old(step) && upgraded == old(upgraded)
        else
          && effects == [Write(QueueAt(queue, old(step)))] && step == old(step) + 1
          && upgraded && isUpgradeInProgress == old(isUpgradeInProgress)
      ensures code == Some(FORWARD_NON_LOCAL_USER) ==>
        if old(step) == |queue| - 1 then effects == [] && Flags() == old(Flags())
        else
          && effects == [Write(QueueAt(queue, old(step)))] && step == old(step) + 1
          && upgraded == old(upgraded) && isUpgradeInProgress == old(isUpgradeInProgress)
      ensures code == Some(START_MAIL_BODY) ==>
        effects == [Write(body), Write(""), Write(".")] && Flags() == old(Flags())
      ensures code == Some(SERVER_CHALLENGE) ==>
        && effects == [] && consoleinStep == old(consoleinStep) + 1
        && step == old(step) && upgraded == old(upgraded) && isUpgradeInProgress == old(isUpgradeInProgress)
      // Any other code of 400 or more ends the connection and throws; nothing advances.
      ensures code.Some? && !Handled(code.value) && code.value >= NEGATIVE_COMPLETION ==>
        effects == [End, Raise(code.value, text)] && Flags() == old(Flags())
      ensures code.None? || (!Handled(code.value) && code.value < NEGATIVE_COMPLETION) ==>
        effects == [] && Flags() == old(Flags())
    {
      effects := [];
      if code.None? {
        return;
      }
      var c := code.value;
      if c == SERVICE_READY {
        if isUpgradeInProgress {
          // The TLS socket replaces the plain one here; only the flag and the
          // re-greeting it leads to are modelled.
          upgraded := true;
          effects := [Write("EHLO " + srcHost)];
        } else {
          var cmd;
          if HasWord(text, "esmtp") {
            cmd := "EHLO";
          } else {
            upgraded := true;
            cmd := "HELO";
          }
          assert cmd + " " == if cmd == "EHLO" then "EHLO " else "HELO ";
          effects := [Write(cmd + " " + srcHost)];
        }
      } else if c == BYE {
        effects := [End];
      } else if c == AUTH_SUCCESS || c == OPERATION_OK {
        if !upgraded {
          if HasWord(text, "STARTTLS") && startTLS {
            isUpgradeInProgress := true;
            return [Write("STARTTLS")];
          }
          upgraded := true;
        }
        effects := [Write(QueueAt(queue, step))];
        step := step + 1;
      } else if c == FORWARD_NON_LOCAL_USER {
        if step == |queue| - 1 {
          return;
        }
        effects := [Write(QueueAt(queue, step))];
        step := step + 1;
      } else if c == START_MAIL_BODY {
        effects := [Write(body), Write(""), Write(".")];
      } else if c == SERVER_CHALLENGE {
        consoleinStep := consoleinStep + 1;
      } else if c >= NEGATIVE_COMPLETION {
        effects := [End, Raise(c, text)];
      }
    }

    /** `onLine(line)` */
    method OnLine(line: string) returns (effects: seq<Effect>, aborted: bool)
      modifies this
      ensures Run(State(), effects, aborted) == LineStep(Ctx(), old(State()), line)
      ensures data == old(data)
      // A continuation line is only appended to the reply.
      ensures !IsFinalLine(line) ==>
        msg == old(msg) + line + CRLF && Flags() == old(Flags()) && effects == [] && !aborted
      // A final line dispatches the reply with the code of its first three characters.
      ensures IsFinalLine(line) ==>
        && Reaction(Flags(), effects) == Step(Ctx(), old(Flags()), ReplyCode(line), old(msg) + line + CRLF)
        && (aborted <==> Raises(effects))
        && (!aborted ==> msg == "")
    {
      msg := msg + line + CRLF;
      if IsFinalLine(line) {
        var code := ReplyCode(line);
        effects := Response(code, msg);
        aborted := Raises(effects);
        if !aborted {
          msg := "";
        }
      } else {
        effects, aborted := [], false;
      }
    }

    /** The `data` handler: append the chunk to the carry buffer, split it on CRLF,
        hand every complete line to `onLine` and keep the unterminated rest. A throw
        leaves the handler at once, with the remaining lines unread and `data`
        holding the whole concatenation. */
    method OnData(chunk: string) returns (effects: seq<Effect>, aborted: bool)
      modifies this
      ensures var parts := Split(old(data) + chunk, CRLF);
        var run := FeedLines(Ctx(), old(State()), parts[..|parts| - 1]);
        && State() == run.state && effects == run.effects && aborted == run.aborted
        && data == if aborted then old(data) + chunk else parts[|parts| - 1]
      // Framing is lossless, and what is kept holds no CRLF.
      ensures !aborted ==>
        var parts := Split(old(data) + chunk, CRLF);
        Terminated(parts[..|parts| - 1], CRLF) + data == old(data) + chunk && !Contains(data, CRLF)
    {
      data := data + chunk;
      var parts := Split(data, CRLF);
      effects, aborted := DispatchLines(parts[..|parts| - 1]);
      if !aborted {
        data := parts[|parts| - 1];
        Framing(old(data) + chunk, CRLF);
      }
    }

    /** The loop of the `data` handler that calls `onLine` on each complete line,
        left early by a throw. */
    method DispatchLines(lines: seq<string>) returns (effects: seq<Effect>, aborted: bool)
      modifies this
      ensures Run(State(), effects, aborted) == FeedLines(Ctx(), old(State()), lines)
      ensures data == old(data)
    {
      effects, aborted := [], false;
      var i := 0;
      while i < |lines| && !aborted
        invariant 0 <= i <= |lines|
        invariant data == old(data)
        invariant Run(State(), effects, aborted) == FeedLines(Ctx(), old(State()), lines[..i])
      {
        ghost var before := State();
        var e, ab := OnLine(lines[i]);
        FeedOne(Ctx(), old(State()), lines, i, Run(before, effects, false), Run(State(), e, ab));
        effects := effects + e;
        aborted := ab;
        i := i + 1;
      }
      if aborted {
        AbortedPrefixFinal(Ctx(), old(State()), lines, i);
      } else {
        assert lines[..i] == lines;
      }
    }
  }

  /** One more line extends a run that has not thrown by one `onLine` step. */
  lemma FeedOne(ctx: SessionContext, s: LineState, lines: seq<string>, i: nat, prev: Run, step: Run)
    requires i < |lines|
    requires FeedLines(ctx, s, lines[..i]) == prev && !prev.aborted
    requires LineStep(ctx, prev.state, lines[i]) == step
    ensures FeedLines(ctx, s, lines[..i + 1]) == Run(step.state, prev.effects + step.effects, step.aborted)
  {
    assert lines[..i + 1][..i] == lines[..i];
  }

  /** Once a throw has stopped the lines, later lines change nothing. */
  lemma {:induction false} AbortedPrefixFinal(ctx: SessionContext, s: LineState, lines: seq<string>, k: nat)
    requires k <= |lines| && FeedLines(ctx, s, lines[..k]).aborted
    ensures FeedLines(ctx, s, lines) == FeedLines(ctx, s, lines[..k])
    decreases |lines| - k
  {
    if k < |lines| {
      assert lines[..k + 1][..k] == lines[..k];
      assert FeedLines(ctx, s, lines[..k + 1]) == FeedLines(ctx, s, lines[..k]);
      AbortedPrefixFinal(ctx, s, lines, k + 1);
    } else {
      assert lines[..k] == lines;
    }
  }

  lemma ThenExtend(ctx: SessionContext, first: Run, second: Run, line: string)
    ensures Extend(ctx, Then(first, second), line) == Then(first, Extend(ctx, second, line))
  {
    if !first.aborted && !second.aborted {
      var r := LineStep(ctx, second.state, line);
      assert first.effects + second.effects + r.effects == first.effects + (second.effects + r.effects);
    }
  }

  /** Feeding two batches of complete lines in turn is the same as feeding them
      at once, and a throw in the first batch means the second is never read. */
  lemma {:induction false} FeedConcat(ctx: SessionContext, s: LineState, a: seq<string>, b: seq<string>)
    ensures var first := FeedLines(ctx, s, a);
      FeedLines(ctx, s, a + b) == Then(first, FeedLines(ctx, first.state, b))
    decreases |b|
  {
    var first := FeedLines(ctx, s, a);
    if b == [] {
      assert a + b == a;
    } else {
      var b' := b[..|b| - 1];
      assert (a + b)[..|a + b| - 1] == a + b';
      assert (a + b)[|a + b| - 1] == b[|b| - 1];
      FeedConcat(ctx, s, a, b');
      ThenExtend(ctx, first, FeedLines(ctx, first.state, b'), b[|b| - 1]);
    }
  }

  /** Continuation lines only accumulate: no reaction, no flag change, and `msg`
      grows by each line with its CRLF. */
  lemma {:induction false} ContinuationLines(ctx: SessionContext, s: LineState, lines: seq<string>)
    requires forall k :: 0 <= k < |lines| ==> !IsFinalLine(lines[k])
    ensures FeedLines(ctx, s, lines) == Run(LineState(s.flags, s.msg + Terminated(lines, CRLF)), [], false)
  {
    if lines != [] {
      var init := lines[..|lines| - 1];
      assert forall k :: 0 <= k < |init| ==> init[k] == lines[k];
      ContinuationLines(ctx, s, init);
      assert s.msg + Terminated(init, CRLF) + lines[|lines| - 1] + CRLF == s.msg + Terminated(lines, CRLF);
    }
  }

  lemma FeedSingle(ctx: SessionContext, s: LineState, line: string)
    ensures FeedLines(ctx, s, [line]) == LineStep(ctx, s, line)
  {
    assert [line][..0] == [];
    assert [] + LineStep(ctx, s, line).effects == LineStep(ctx, s, line).effects;
  }

  /** After continuation lines, the next line meets the whole accumulated reply. */
  lemma AfterContinuation(ctx: SessionContext, s: LineState, lines: seq<string>, last: string)
    requires forall k :: 0 <= k < |lines| ==> !IsFinalLine(lines[k])
    ensures FeedLines(ctx, s, lines + [last])
      == LineStep(ctx, LineState(s.flags, s.msg + Terminated(lines, CRLF)), last)
  {
    var mid := LineState(s.flags, s.msg + Terminated(lines, CRLF));
    ContinuationLines(ctx, s, lines);
    FeedConcat(ctx, s, lines, [last]);
    FeedSingle(ctx, mid, last);
    assert [] + LineStep(ctx, mid, last).effects == LineStep(ctx, mid, last).effects;
  }

  /** A multi-line reply (continuation lines, then a line with a space after the
      code) reaches `response` once, with the code of its last line and the whole
      reply text, each line ending in CRLF. */
  lemma MultiLineReply(ctx: SessionContext, s: LineState, lines: seq<string>, last: string)
    requires forall k :: 0 <= k < |lines| ==> !IsFinalLine(lines[k])
    requires IsFinalLine(last)
    ensures var text := s.msg + Terminated(lines + [last], CRLF);
      var r := Step(ctx, s.flags, ReplyCode(last), text);
      var run := FeedLines(ctx, s, lines + [last]);
      && run.effects == r.effects && run.state.flags == r.flags
      && run.aborted == Raises(r.effects)
      && run.state.msg == if run.aborted then text else ""
  {
    AfterContinuation(ctx, s, lines, last);
    TerminatedAppend(lines, [last], CRLF);
    assert Terminated([last], CRLF) == last + CRLF by {
      assert [last][..0] == [];
    }
    assert s.msg + Terminated(lines, CRLF) + last + CRLF == s.msg + Terminated(lines + [last], CRLF);
  }

  /** The code a reply line carries: three decimal digits read as a number. */
  lemma DigitReplyCode(line: string)
    requires |line| >= 3 && IsDecimalDigit(line[0]) && IsDecimalDigit(line[1]) && IsDecimalDigit(line[2])
    ensures ReplyCode(line) == Some(100 * (line[0] as int - '0' as int) + 10 * (line[1] as int - '0' as int) + (line[2] as int - '0' as int))
  {
    ThreeDigits(line[..3]);
  }

  /** Commands leave the queue in order: each reply moves the cursor by at most
      one, and when it does it writes the command under the old cursor. Only a
      250 or 235 past the STARTTLS offer, or a 251 short of the last entry, moves it. */
  lemma StepFollowsQueue(ctx: SessionContext, f: ProtocolFlags, code: Option<int>, text: string)
    ensures var r := Step(ctx, f, code, text);
      && (r.flags.step == f.step || r.flags.step == f.step + 1)
      && (r.flags.step == f.step + 1 ==> r.effects == [Write(QueueAt(ctx.queue, f.step))])
      && (r.flags.step == f.step + 1 <==>
            || ((code == Some(OPERATION_OK) || code == Some(AUTH_SUCCESS))
                && !(!f.upgraded && HasWord(text, "STARTTLS") && ctx.startTLS))
            || (code == Some(FORWARD_NON_LOCAL_USER) && f.step != |ctx.queue| - 1))
  {
  }

  /** The session never forgets: the cursor only grows, and `upgraded` and
      `isUpgradeInProgress` are never reset once set. */
  predicate NoReset(before: ProtocolFlags, after: ProtocolFlags)
  {
    && after.step >= before.step && after.authStep >= before.authStep
    && (before.upgraded ==> after.upgraded) && (before.upgrading ==> after.upgrading)
  }

  lemma LineStepNoReset(ctx: SessionContext, s: LineState, line: string)
    ensures NoReset(s.flags, LineStep(ctx, s, line).state.flags)
  {
  }

  lemma {:induction false} FlagsNoReset(ctx: SessionContext, s: LineState, lines: seq<string>)
    ensures NoReset(s.flags, FeedLines(ctx, s, lines).state.flags)
  {
    if lines != [] {
      var prev := FeedLines(ctx, s, lines[..|lines| - 1]);
      FlagsNoReset(ctx, s, lines[..|lines| - 1]);
      if !prev.aborted {
        LineStepNoReset(ctx, prev.state, lines[|lines| - 1]);
      }
    }
  }

  /** After the upgrade no reply starts another STARTTLS negotiation: the
      in-progress flag keeps whatever value it had (it stays set after a completed
      upgrade) and `upgraded` stays set. */
  lemma NoStartTlsAfterUpgrade(ctx: SessionContext, f: ProtocolFlags, code: Option<int>, text: string)
    requires f.upgraded
    ensures Step(ctx, f, code, text).flags.upgrading == f.upgrading
    ensures Step(ctx, f, code, text).flags.upgraded
  {
  }

  /** A whole transaction with a server that does not announce ESMTP: HELO, then
      the queue in order with the body after the 354, then QUIT and the end of the
      connection on 221 (the order of RFC 5321 section 3.3). */
  lemma PlainTransaction(ctx: SessionContext, from: string, rcpt: string, texts: seq<string>)
    requires IsCommandQueue(ctx.queue, from, [rcpt])
    requires |texts| == 7 && !HasWord(texts[0], "esmtp")
    ensures
      var r1 := Step(ctx, ProtocolFlags(0, false, false, 0), Some(SERVICE_READY), texts[0]);
      var r2 := Step(ctx, r1.flags, Some(OPERATION_OK), texts[1]);
      var r3 := Step(ctx, r2.flags, Some(OPERATION_OK), texts[2]);
      var r4 := Step(ctx, r3.flags, Some(OPERATION_OK), texts[3]);
      var r5 := Step(ctx, r4.flags, Some(START_MAIL_BODY), texts[4]);
      var r6 := Step(ctx, r5.flags, Some(OPERATION_OK), texts[5]);
      var r7 := Step(ctx, r6.flags, Some(BYE), texts[6]);
      && r1.effects + r2.effects + r3.effects + r4.effects + r5.effects + r6.effects + r7.effects
         == [Write("HELO " + ctx.srcHost), Write("MAIL FROM:<" + from + ">"), Write("RCPT TO:<" + rcpt + ">"),
             Write("DATA"), Write(ctx.body), Write(""), Write("."), Write("QUIT"), End]
      && r7.flags.step == |ctx.queue| - 1
  {
    assert ctx.queue[0 + 1] == "RCPT TO:<" + [rcpt][0] + ">";
  }

  /** With STARTTLS offered and wanted, the client greets with EHLO, asks for
      STARTTLS once, greets again with EHLO on the new greeting, and only then
      starts the queue (RFC 3207 section 4.2). */
  lemma StartTlsUpgrade(ctx: SessionContext, from: string, recipients: seq<string>, greeting: string, offer: string,
                        again: string, ok: string)
    requires IsCommandQueue(ctx.queue, from, recipients) && ctx.startTLS
    requires HasWord(greeting, "esmtp") && HasWord(offer, "STARTTLS")
    ensures
      var r1 := Step(ctx, ProtocolFlags(0, false, false, 0), Some(SERVICE_READY), greeting);
      var r2 := Step(ctx, r1.flags, Some(OPERATION_OK), offer);
      var r3 := Step(ctx, r2.flags, Some(SERVICE_READY), again);
      var r4 := Step(ctx, r3.flags, Some(OPERATION_OK), offer);
      && r1.effects + r2.effects + r3.effects + r4.effects
         == [Write("EHLO " + ctx.srcHost), Write("STARTTLS"), Write("EHLO " + ctx.srcHost), Write("MAIL FROM:<" + from + ">")]
      && r4.flags == ProtocolFlags(1, true, true, 0)
  {
  }
}
