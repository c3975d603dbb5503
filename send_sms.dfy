/** The SMS sender (SMSSender in the driver): sending one text-mode message with
    AT+CMGS (3GPP TS 27.005 section 4.3) through the "> " prompt, and sending a
    batch of messages to one number. */
module SendSms {
  import opened TextOps
  import opened Sim800c

  /** The submission command for a number, with its line terminator. */
  function SubmitLine(phone: string): string
  {
    "AT+CMGS=\"" + phone + "\"" + CRLF
  }

  /** The byte (Ctrl+Z) that ends the message body and submits it. */
  const CtrlZ: string := "\U{1A}"

  // ---------------------------------------------------------------------------
  // The prompt phase

  /** How the prompt phase ended and what is left to read. */
  datatype PromptWait = PromptWait(found: bool, faulted: bool, rest: seq<Arrival>)

  /** Read stripped lines until one contains '>'; the window's exit (silence or
      the end of input) means no prompt, a failed read raises. */
  function AwaitPrompt(q: seq<Arrival>): (p: PromptWait)
    ensures |p.rest| < |q| || (q == [] && p == PromptWait(false, false, []))
    ensures !(p.found && p.faulted)
    decreases |q|
  {
    if q == [] then PromptWait(false, false, [])
    else match q[0]
      case Fault => PromptWait(false, true, q[1..])
      case Silence => PromptWait(false, false, q[1..])
      case Line(text) =>
        if Contains(Strip(text), ">") then PromptWait(true, false, q[1..]) else AwaitPrompt(q[1..])
  }

  /** A line that ends the prompt phase. */
  predicate IsPromptLine(a: Arrival)
  {
    a.Line? && Contains(Strip(a.text), ">")
  }

  /** A line the prompt phase reads past. */
  predicate IsOtherLine(a: Arrival)
  {
    a.Line? && !Contains(Strip(a.text), ">")
  }

  /** A prompt line after only other lines is found. */
  lemma {:induction false} PromptReachedAt(q: seq<Arrival>, k: nat)
    requires k < |q| && IsPromptLine(q[k])
    requires forall j :: 0 <= j < k ==> IsOtherLine(q[j])
    ensures AwaitPrompt(q).found
    decreases k
  {
    if k > 0 {
      assert IsOtherLine(q[0]);
      forall j | 0 <= j < k - 1
        ensures IsOtherLine(q[1..][j])
      {
        assert q[1..][j] == q[j + 1];
      }
      PromptReachedAt(q[1..], k - 1);
    }
  }

  /** A found prompt is a prompt line after only other lines. */
  lemma {:induction false} PromptPosition(q: seq<Arrival>) returns (k: nat)
    requires AwaitPrompt(q).found
    ensures k < |q| && IsPromptLine(q[k])
    ensures forall j :: 0 <= j < k ==> IsOtherLine(q[j])
    decreases |q|
  {
    if IsPromptLine(q[0]) {
      k := 0;
    } else {
      var k' := PromptPosition(q[1..]);
      k := k' + 1;
      forall j | 0 <= j < k
        ensures IsOtherLine(q[j])
      {
        if j > 0 { assert q[j] == q[1..][j - 1]; }
      }
    }
  }

  /** The prompt is found exactly when a line containing '>' arrives before the
      window's exit; the lines before it are read past. */
  lemma PromptFoundIff(q: seq<Arrival>)
    ensures AwaitPrompt(q).found <==>
      exists k :: 0 <= k < |q| && IsPromptLine(q[k]) && forall j :: 0 <= j < k ==> IsOtherLine(q[j])
  {
    if AwaitPrompt(q).found {
      var k := PromptPosition(q);
    }
    if exists k :: 0 <= k < |q| && IsPromptLine(q[k]) && forall j :: 0 <= j < k ==> IsOtherLine(q[j]) {
      var k :| 0 <= k < |q| && IsPromptLine(q[k]) && forall j :: 0 <= j < k ==> IsOtherLine(q[j]);
      PromptReachedAt(q, k);
    }
  }

  // ---------------------------------------------------------------------------
  // The reply phase

  /** A reply line that ends the reply phase. */
  predicate IsFinalReply(line: string)
  {
    Contains(line, "OK") || Contains(line, "ERROR") || Contains(line, "+CMGS:")
  }

  /** The lines kept by the reply phase, whether a read raised, and what is
      left to read. */
  datatype Reply = Reply(lines: seq<string>, faulted: bool, rest: seq<Arrival>)

  /** Keep the stripped non-blank lines up to and including the first final one;
      the window's exit ends the phase too, a failed read raises. */
  function CollectReply(q: seq<Arrival>): (r: Reply)
    ensures |r.rest| <= |q|
    ensures q != [] ==> |r.rest| < |q|
    decreases |q|
  {
    if q == [] then Reply([], false, [])
    else match q[0]
      case Fault => Reply([], true, q[1..])
      case Silence => Reply([], false, q[1..])
      case Line(text) =>
        var line := Strip(text);
        if line == "" then CollectReply(q[1..])
        else if IsFinalReply(line) then Reply([line], false, q[1..])
        else
          var r := CollectReply(q[1..]);
          Reply([line] + r.lines, r.faulted, r.rest)
  }

  /** A line as the reply phase keeps it: non-blank, already stripped. */
  predicate KeptLine(line: string)
  {
    line != "" && Strip(line) == line
  }

  /** Every kept line is non-blank and has no surrounding whitespace, and only
      the last one can be final. */
  lemma {:induction false} ReplyLinesShape(q: seq<Arrival>)
    ensures forall k :: 0 <= k < |CollectReply(q).lines| ==> KeptLine(CollectReply(q).lines[k])
    ensures forall k :: 0 <= k < |CollectReply(q).lines| - 1 ==> !IsFinalReply(CollectReply(q).lines[k])
    decreases |q|
  {
    if q != [] && q[0].Line? {
      var line := Strip(q[0].text);
      StripIdempotent(q[0].text);
      ReplyLinesShape(q[1..]);
      var ls := CollectReply(q[1..]).lines;
      if line != "" && !IsFinalReply(line) {
        var all := [line] + ls;
        assert CollectReply(q).lines == all;
        forall k | 0 <= k < |all|
          ensures KeptLine(all[k])
        {
          if k > 0 { assert all[k] == ls[k - 1]; }
        }
        forall k | 0 <= k < |all| - 1
          ensures !IsFinalReply(all[k])
        {
          if k > 0 { assert all[k] == ls[k - 1]; }
        }
      }
    }
  }

  /** The texts of the lines among some arrivals, in order. */
  function LineTexts(q: seq<Arrival>): seq<string>
  {
    if q == [] then [] else (if q[0].Line? then [q[0].text] else []) + LineTexts(q[1..])
  }

  /** The n-th arrival read is a line whose stripped text is final. */
  predicate EndsFinal(q: seq<Arrival>, n: nat)
  {
    0 < n <= |q| && q[n - 1].Line? && IsFinalReply(Strip(q[n - 1].text))
  }

  /** The reply phase reads the first n arrivals, all lines, none of them final
      but the last, and stops at the first final line, at the window's exit or
      at a failed read (consumed too), or at the end of input. The lines kept
      are exactly the capture of those n raw lines: stripped, blank ones dropped. */
  lemma {:induction false} ReplyExtent(q: seq<Arrival>) returns (n: nat)
    ensures n <= |q|
    ensures forall j :: 0 <= j < n ==> q[j].Line?
    ensures forall j :: 0 <= j < n - 1 ==> !IsFinalReply(Strip(q[j].text))
    ensures n < |q| && q[n].Line? ==> EndsFinal(q, n)
    ensures CollectReply(q).lines == CaptureLines(LineTexts(q[..n]))
    ensures CollectReply(q).faulted <==> !EndsFinal(q, n) && n < |q| && q[n].Fault?
    ensures CollectReply(q).rest == if !EndsFinal(q, n) && n < |q| then q[n + 1..] else q[n..]
    decreases |q|
  {
    if q == [] || !q[0].Line? {
      n := 0;
    } else {
      var line := Strip(q[0].text);
      if line != "" && IsFinalReply(line) {
        n := 1;
        assert q[..1] == [q[0]] && LineTexts([q[0]]) == [q[0].text];
        CaptureOne(q[0].text);
      } else {
        var m := ReplyExtent(q[1..]);
        n := m + 1;
        ReplyExtentStep(q, m);
      }
    }
  }

  /** The step of ReplyExtent past a non-final first line. */
  lemma ReplyExtentStep(q: seq<Arrival>, m: nat)
    requires q != [] && q[0].Line? && !(Strip(q[0].text) != "" && IsFinalReply(Strip(q[0].text)))
    requires m <= |q[1..]|
    requires forall j :: 0 <= j < m ==> q[1..][j].Line?
    requires forall j :: 0 <= j < m - 1 ==> !IsFinalReply(Strip(q[1..][j].text))
    requires m < |q[1..]| && q[1..][m].Line? ==> EndsFinal(q[1..], m)
    requires CollectReply(q[1..]).lines == CaptureLines(LineTexts(q[1..][..m]))
    requires CollectReply(q[1..]).faulted <==> !EndsFinal(q[1..], m) && m < |q[1..]| && q[1..][m].Fault?
    requires CollectReply(q[1..]).rest == if !EndsFinal(q[1..], m) && m < |q[1..]| then q[1..][m + 1..] else q[1..][m..]
    ensures forall j :: 0 <= j < m + 1 ==> q[j].Line?
    ensures forall j :: 0 <= j < m ==> !IsFinalReply(Strip(q[j].text))
    ensures EndsFinal(q, m + 1) == EndsFinal(q[1..], m)
    ensures m + 1 < |q| && q[m + 1].Line? ==> EndsFinal(q, m + 1)
    ensures CollectReply(q).lines == CaptureLines(LineTexts(q[..m + 1]))
    ensures CollectReply(q).faulted <==> !EndsFinal(q, m + 1) && m + 1 < |q| && q[m + 1].Fault?
    ensures CollectReply(q).rest == if !EndsFinal(q, m + 1) && m + 1 < |q| then q[m + 2..] else q[m + 1..]
  {
    assert !IsFinalReply("") by {
      assert !Contains("", "OK") && !Contains("", "ERROR") && !Contains("", "+CMGS:");
    }
    assert forall j :: 0 < j < m + 1 ==> q[j] == q[1..][j - 1];
    if m > 0 { assert q[1..][m - 1] == q[m]; }
    ReplyLinesStep(q, m);
    ReplyExitStep(q, m);
  }

  /** The kept lines after a non-final first line. */
  lemma ReplyLinesStep(q: seq<Arrival>, m: nat)
    requires q != [] && q[0].Line? && !(Strip(q[0].text) != "" && IsFinalReply(Strip(q[0].text)))
    requires m <= |q[1..]|
    requires CollectReply(q[1..]).lines == CaptureLines(LineTexts(q[1..][..m]))
    ensures CollectReply(q).lines == CaptureLines(LineTexts(q[..m + 1]))
  {
    assert q[..m + 1][0] == q[0] && q[..m + 1][1..] == q[1..][..m];
    assert LineTexts(q[..m + 1]) == [q[0].text] + LineTexts(q[1..][..m]);
    CaptureCons([], q[0].text, LineTexts(q[1..][..m]));
  }

  /** The exit of the reply phase after a non-final first line. */
  lemma ReplyExitStep(q: seq<Arrival>, m: nat)
    requires q != [] && q[0].Line? && !(Strip(q[0].text) != "" && IsFinalReply(Strip(q[0].text)))
    requires m <= |q[1..]|
    requires EndsFinal(q, m + 1) == EndsFinal(q[1..], m)
    requires CollectReply(q[1..]).faulted <==> !EndsFinal(q[1..], m) && m < |q[1..]| && q[1..][m].Fault?
    requires CollectReply(q[1..]).rest == if !EndsFinal(q[1..], m) && m < |q[1..]| then q[1..][m + 1..] else q[1..][m..]
    ensures CollectReply(q).faulted <==> !EndsFinal(q, m + 1) && m + 1 < |q| && q[m + 1].Fault?
    ensures CollectReply(q).rest == if !EndsFinal(q, m + 1) && m + 1 < |q| then q[m + 2..] else q[m + 1..]
  {
    if m + 1 < |q| {
      assert q[1..][m] == q[m + 1] && q[1..][m + 1..] == q[m + 2..];
    }
    assert q[1..][m..] == q[m + 1..];
  }

  /** The result of the reply phase: the kept lines joined by newlines; success
      when OK or +CMGS: occurs in them. */
  function ReplyResult(lines: seq<string>): TransactionResult
  {
    var data := Join(lines, "\n");
    TransactionResult(Contains(data, "OK") || Contains(data, "+CMGS:"), data)
  }

  /** Success holds exactly when some kept line contains OK or +CMGS:. */
  lemma ReplySuccessIff(lines: seq<string>)
    ensures ReplyResult(lines).success <==>
      exists k :: 0 <= k < |lines| && (Contains(lines[k], "OK") || Contains(lines[k], "+CMGS:"))
  {
    ContainsJoin(lines, '\n', "OK");
    ContainsJoin(lines, '\n', "+CMGS:");
  }

  // ---------------------------------------------------------------------------
  // send_sms_message

  /** send_sms_message on an abstract link. */
  function SendSmsMessageRun(s: State, phone: string, message: string): (r: Run<TransactionResult>)
    ensures var mode := Send(s, "AT+CMGF=1");
      && (mode.out.Raised? ==> r == Run(Raised, mode.post))
      && (mode.out.Done? && !mode.out.value.success ==> r == Run(Done(TransactionResult(false, "")), mode.post))
      && (mode.out.Done? && mode.out.value.success ==>
            var sent := mode.post.written + [SubmitLine(phone)];
            var p := AwaitPrompt(mode.post.incoming);
            && r.post.isOpen == mode.post.isOpen && r.post.baudrate == mode.post.baudrate
            && r.post.readTimeout == mode.post.readTimeout && r.post.disconnects == mode.post.disconnects
            && (p.faulted ==> r == Run(Raised, mode.post.(written := sent, incoming := p.rest)))
            && (!p.found && !p.faulted ==>
                  r == Run(Done(TransactionResult(false, "")), mode.post.(written := sent, incoming := p.rest)))
            && (p.found ==>
                  var rep := CollectReply(p.rest);
                  && r.post.written == sent + [message, CtrlZ]
                  && r.post.incoming == rep.rest
                  && r.out == (if rep.faulted then Raised else Done(ReplyResult(rep.lines)))))
  {
    var mode := Send(s, "AT+CMGF=1");
    match mode.out
    case Raised => Run(Raised, mode.post)
    case Done(modeReply) =>
      if !modeReply.success then Run(Done(TransactionResult(false, "")), mode.post)
      else
        var submitted := mode.post.(written := mode.post.written + [SubmitLine(phone)]);
        var p := AwaitPrompt(submitted.incoming);
        if p.faulted then Run(Raised, submitted.(incoming := p.rest))
        else if !p.found then Run(Done(TransactionResult(false, "")), submitted.(incoming := p.rest))
        else
          var body := submitted.(incoming := p.rest, written := submitted.written + [message, CtrlZ]);
          var rep := CollectReply(body.incoming);
          var after := body.(incoming := rep.rest);
          if rep.faulted then Run(Raised, after) else Run(Done(ReplyResult(rep.lines)), after)
  }

  /** A closed link fails at the mode command and writes nothing. */
  lemma ClosedLinkSendsNothing(s: State, phone: string, message: string)
    requires !s.isOpen
    ensures SendSmsMessageRun(s, phone, message) == Run(Done(TransactionResult(false, "")), s)
  {
  }

  /** If the mode command fails, no submission command and no body is written. */
  lemma {:induction false} ModeFailureWritesNoSubmission(s: State, phone: string, message: string)
    requires Send(s, "AT+CMGF=1").out.Done? && !Send(s, "AT+CMGF=1").out.value.success
    ensures var r := SendSmsMessageRun(s, phone, message);
      r.out == Done(TransactionResult(false, ""))
      && r.post.written == s.written + (if s.isOpen then [CommandLine("AT+CMGF=1")] else [])
  {
  }

  /** A successful send always wrote the submission command, the body and the
      Ctrl+Z, in that order and nothing else after the mode command. */
  lemma SuccessWroteWholeMessage(s: State, phone: string, message: string)
    requires SendSmsMessageRun(s, phone, message).out.Done?
    requires SendSmsMessageRun(s, phone, message).out.value.success
    ensures SendSmsMessageRun(s, phone, message).post.written
            == s.written + [CommandLine("AT+CMGF=1"), SubmitLine(phone), message, CtrlZ]
  {
    var mode := Send(s, "AT+CMGF=1");
    assert mode.out.Done? && mode.out.value.success;
    assert AwaitPrompt(mode.post.incoming).found;
  }

  /** The prompt loop of send_sms_message: read past lines until one contains
      '>'; otherwise consume the window's exit. */
  method WaitForPrompt(m: Modem) returns (p: PromptWait)
    modifies m
    ensures p == AwaitPrompt(old(m.incoming))
    ensures m.View() == old(m.View()).(incoming := p.rest)
  {
    var promptReceived := false;
    while m.incoming != [] && m.incoming[0].Line?
      invariant AwaitPrompt(m.incoming) == AwaitPrompt(old(m.incoming))
      invariant m.View() == old(m.View()).(incoming := m.incoming)
      decreases |m.incoming|
    {
      var line := Strip(m.incoming[0].text);
      m.incoming := m.incoming[1..];
      if Contains(line, ">") {
        promptReceived := true;
        break;
      }
    }
    if promptReceived {
      return PromptWait(true, false, m.incoming);
    }
    if m.incoming != [] {
      var ev := m.incoming[0];
      m.incoming := m.incoming[1..];
      return PromptWait(false, ev.Fault?, m.incoming);
    }
    return PromptWait(false, false, []);
  }

  /** The reply loop of send_sms_message: keep stripped non-blank lines until a
      final one; otherwise consume the window's exit. */
  method ReadReply(m: Modem) returns (rep: Reply)
    modifies m
    ensures rep == CollectReply(old(m.incoming))
    ensures m.View() == old(m.View()).(incoming := rep.rest)
  {
    ghost var reply := CollectReply(m.incoming);
    var responseLines: seq<string> := [];
    var finalResponseSeen := false;
    while m.incoming != [] && m.incoming[0].Line?
      invariant var now := CollectReply(m.incoming);
        reply == Reply(responseLines + now.lines, now.faulted, now.rest)
      invariant m.View() == old(m.View()).(incoming := m.incoming)
      decreases |m.incoming|
    {
      var line := Strip(m.incoming[0].text);
      ReplyStep(responseLines, m.incoming);
      m.incoming := m.incoming[1..];
      if line != "" {
        responseLines := responseLines + [line];
        if Contains(line, "OK") || Contains(line, "ERROR") || Contains(line, "+CMGS:") {
          finalResponseSeen := true;
          break;
        }
      }
    }
    if finalResponseSeen {
      return Reply(responseLines, false, m.incoming);
    }
    assert responseLines + [] == responseLines;
    if m.incoming != [] {
      var ev := m.incoming[0];
      m.incoming := m.incoming[1..];
      return Reply(responseLines, ev.Fault?, m.incoming);
    }
    return Reply(responseLines, false, []);
  }

  /** send_sms_message on the driver. */
  method SendSmsMessage(m: Modem, phone: string, message: string) returns (r: Outcome<TransactionResult>)
    modifies m
    ensures var run := SendSmsMessageRun(old(m.View()), phone, message); r == run.out && m.View() == run.post
  {
    var cmgfResult :- m.SendAtCommand("AT+CMGF=1");
    if !cmgfResult.success {
      return Done(TransactionResult(false, ""));
    }
    m.written := m.written + [SubmitLine(phone)];
    var prompt := WaitForPrompt(m);
    if prompt.faulted {
      return Raised;
    }
    if !prompt.found {
      return Done(TransactionResult(false, ""));
    }
    m.written := m.written + [message];
    m.written := m.written + [CtrlZ];
    var reply := ReadReply(m);
    if reply.faulted {
      return Raised;
    }
    var responseData := Join(reply.lines, "\n");
    if Contains(responseData, "OK") || Contains(responseData, "+CMGS:") {
      return Done(TransactionResult(true, responseData));
    } else {
      return Done(TransactionResult(false, responseData));
    }
  }

  /** One read of the reply loop, stated on the specification. */
  lemma ReplyStep(acc: seq<string>, q: seq<Arrival>)
    requires q != [] && q[0].Line?
    ensures var line := Strip(q[0].text);
      var now := CollectReply(q);
      var next := CollectReply(q[1..]);
      && (line == "" ==> Reply(acc + now.lines, now.faulted, now.rest) == Reply(acc + next.lines, next.faulted, next.rest))
      && (line != "" && IsFinalReply(line) ==> now == Reply([line], false, q[1..]))
      && (line != "" && !IsFinalReply(line) ==>
            Reply(acc + now.lines, now.faulted, now.rest) == Reply((acc + [line]) + next.lines, next.faulted, next.rest))
  {
    var line := Strip(q[0].text);
    if line != "" && !IsFinalReply(line) {
      assert acc + ([line] + CollectReply(q[1..]).lines) == (acc + [line]) + CollectReply(q[1..]).lines;
    }
  }

  // ---------------------------------------------------------------------------
  // send_sms

  /** The per-message success flags of a batch, in order; a raised error stops
      the batch. */
  function SendEach(s: State, phone: string, messages: seq<string>): (r: Run<seq<bool>>)
    ensures r.out.Done? ==> |r.out.value| == |messages|
    decreases |messages|
  {
    if messages == [] then Run(Done([]), s)
    else
      var first := SendSmsMessageRun(s, phone, messages[0]);
      match first.out
      case Raised => Run(Raised, first.post)
      case Done(reply) =>
        var rest := SendEach(first.post, phone, messages[1..]);
        match rest.out
        case Raised => Run(Raised, rest.post)
        case Done(flags) => Run(Done([reply.success] + flags), rest.post)
  }

  /** A single message is sent exactly as send_sms_message sends it; its
      flag is the reply's success. */
  lemma SendEachOne(s: State, phone: string, message: string)
    ensures var one := SendSmsMessageRun(s, phone, message);
      SendEach(s, phone, [message])
        == Run(if one.out.Raised? then Raised else Done([one.out.value.success]), one.post)
  {
    assert [message][0] == message && [message][1..] == [];
    var one := SendSmsMessageRun(s, phone, message);
    if one.out.Done? {
      assert SendEach(one.post, phone, []) == Run(Done([]), one.post);
      assert [one.out.value.success] + [] == [one.out.value.success];
    }
  }

  /** Sending a + b is sending a, then b from the state a left; an error
      raised in a stops the batch, and the flags are concatenated. */
  lemma {:induction false} SendEachAppend(s: State, phone: string, a: seq<string>, b: seq<string>)
    ensures var ea := SendEach(s, phone, a);
      var eb := SendEach(ea.post, phone, b);
      SendEach(s, phone, a + b)
        == if ea.out.Raised? then ea
           else Run(if eb.out.Raised? then Raised else Done(ea.out.value + eb.out.value), eb.post)
    decreases |a|
  {
    if a == [] {
      assert a + b == b;
      assert SendEach(s, phone, a) == Run(Done([]), s);
      var eb := SendEach(s, phone, b);
      if eb.out.Done? {
        assert [] + eb.out.value == eb.out.value;
      }
    } else {
      assert (a + b)[0] == a[0] && (a + b)[1..] == a[1..] + b;
      var first := SendSmsMessageRun(s, phone, a[0]);
      if first.out.Done? {
        SendEachAppend(first.post, phone, a[1..], b);
        var rest := SendEach(first.post, phone, a[1..]);
        if rest.out.Done? {
          var eb := SendEach(rest.post, phone, b);
          if eb.out.Done? {
            assert [first.out.value.success] + (rest.out.value + eb.out.value)
                == ([first.out.value.success] + rest.out.value) + eb.out.value;
          }
        }
      }
    }
  }

  function CountTrue(flags: seq<bool>): (n: nat)
    ensures n <= |flags|
  {
    if flags == [] then 0 else (if flags[0] then 1 else 0) + CountTrue(flags[1..])
  }

  /** All flags are counted exactly when every flag is true. */
  lemma {:induction false} CountAllIffAll(flags: seq<bool>)
    ensures CountTrue(flags) == |flags| <==> forall k :: 0 <= k < |flags| ==> flags[k]
    decreases |flags|
  {
    if flags != [] {
      CountAllIffAll(flags[1..]);
      assert forall k :: 0 < k < |flags| ==> flags[k] == flags[1..][k - 1];
    }
  }

  /** The batch loop, with the running success count, from message i on. */
  function SendFrom(s: State, phone: string, messages: seq<string>, i: nat, count: nat): Run<nat>
    decreases |messages| - i
  {
    if i >= |messages| then Run(Done(count), s)
    else
      var r := SendSmsMessageRun(s, phone, messages[i]);
      match r.out
      case Raised => Run(Raised, r.post)
      case Done(reply) => SendFrom(r.post, phone, messages, i + 1, count + (if reply.success then 1 else 0))
  }

  /** The loop's count is the number of successful messages of the batch. */
  lemma {:induction false} SendFromCounts(s: State, phone: string, messages: seq<string>, i: nat, count: nat)
    requires i <= |messages|
    ensures var e := SendEach(s, phone, messages[i..]);
      SendFrom(s, phone, messages, i, count)
        == Run(if e.out.Raised? then Raised else Done(count + CountTrue(e.out.value)), e.post)
    decreases |messages| - i
  {
    if i < |messages| {
      assert messages[i..][0] == messages[i] && messages[i..][1..] == messages[i + 1..];
      var r := SendSmsMessageRun(s, phone, messages[i]);
      if r.out.Done? {
        var ok := r.out.value.success;
        SendFromCounts(r.post, phone, messages, i + 1, count + (if ok then 1 else 0));
        var rest := SendEach(r.post, phone, messages[i + 1..]);
        if rest.out.Done? {
          assert SendEach(s, phone, messages[i..]) == Run(Done([ok] + rest.out.value), rest.post);
          assert ([ok] + rest.out.value)[1..] == rest.out.value;
        } else {
          assert SendEach(s, phone, messages[i..]) == Run(Raised, rest.post);
        }
      } else {
        assert SendEach(s, phone, messages[i..]) == Run(Raised, r.post);
      }
    }
  }

  /** send_sms: true exactly when no error was raised and every message
      succeeded; an empty batch succeeds. */
  function SendSmsRun(s: State, phone: string, messages: seq<string>): (r: Run<bool>)
    ensures r.out.Done?
    ensures var e := SendEach(s, phone, messages);
      && r.post == e.post
      && (r.out.value <==> e.out.Done? && forall k :: 0 <= k < |messages| ==> e.out.value[k])
  {
    SendFromCounts(s, phone, messages, 0, 0);
    assert messages[0..] == messages;
    var e := SendEach(s, phone, messages);
    CountAllIffAll(if e.out.Done? then e.out.value else []);
    var loop := SendFrom(s, phone, messages, 0, 0);
    match loop.out
    case Raised => Run(Done(false), loop.post)
    case Done(successCount) => Run(Done(successCount == |messages|), loop.post)
  }

  lemma EmptyBatchSucceeds(s: State, phone: string)
    ensures SendSmsRun(s, phone, []) == Run(Done(true), s)
  {
  }

  /** send_sms on the driver. */
  method SendSmsBatch(m: Modem, phone: string, messages: seq<string>) returns (ok: bool)
    modifies m
    ensures var run := SendSmsRun(old(m.View()), phone, messages); Done(ok) == run.out && m.View() == run.post
  {
    var successCount := 0;
    for i := 0 to |messages|
      invariant SendFrom(m.View(), phone, messages, i, successCount) == SendFrom(old(m.View()), phone, messages, 0, 0)
    {
      var result := SendSmsMessage(m, phone, messages[i]);
      if result.Raised? {
        return false;
      }
      if result.value.success {
        successCount := successCount + 1;
      }
    }
    return successCount == |messages|;
  }
}
