/** The SIM800C driver core: one AT-command transaction over the serial link,
    the integer value of a `<prefix> <int>` reply, the two "query, compare,
    correct if needed" reconcilers, baud-rate detection, module verification
    and connection setup.

    The link is abstract. What the modem sends is a queue of `Arrival`s that
    the reading loops consume in order; timing is not modelled, so a `Silence`
    marks the point where a reading loop's time-based exit fires (its overall
    deadline, or the quiet window after a terminal token) and an exhausted
    queue means nothing more ever arrives. A `Fault` is a read that raises a
    serial error. Everything written to the link is appended to a log.

    Every operation is specified by a function from the state before it to a
    `Run`: its outcome and the state after it. The class `Modem` holds the
    same state in fields, and each of its methods is proved to do what that
    function says. */
module Sim800c {
  import opened TextOps

  datatype Arrival = Line(text: string) | Silence | Fault

  /** The dictionary {'success': ..., 'data': ...} a transaction returns. */
  datatype TransactionResult = TransactionResult(success: bool, data: string)

  /** A call either raises or returns a value. */
  datatype Outcome<T> = Raised | Done(value: T) {
    predicate IsFailure() { Raised? }
    function PropagateFailure<U>(): Outcome<U>
      requires Raised?
    {
      Raised
    }
    function Extract(): T
      requires Done?
    {
      value
    }
  }

  /** The driver's state: the link's open flag and read timeout (ms), the
      configured baud rate, the arrivals still to be read, the log of writes,
      and how many times `disconnect` has been called. */
  datatype State = State(isOpen: bool, baudrate: int, readTimeout: int,
                         incoming: seq<Arrival>, written: seq<string>, disconnects: nat)

  /** What the environment fixes: whether the configured port can be opened,
      and the configured read timeout (ms). */
  datatype Config = Config(portAvailable: bool, timeout: int)

  /** The outcome of an operation and the state it leaves. */
  datatype Run<T> = Run(out: Outcome<T>, post: State)

  const CRLF: string := "\r\n"

  /** Candidate speeds, most likely first. */
  const Speeds: seq<int> := [115200, 9600, 19200, 38400, 57600]

  /** Read timeout of the link while probing a speed (0.5 s). */
  const ProbeTimeout: int := 500

  /** The transaction's line, as written to the link. */
  function CommandLine(command: string): string { command + CRLF }

  // ---------------------------------------------------------------------------
  // Reading the link

  /** What one reading loop gets: the raw lines before the loop's exit, whether
      the exit was a raised read, and the arrivals left for later loops. */
  datatype Window = Window(lines: seq<string>, faulted: bool, rest: seq<Arrival>)

  function ReadWindow(q: seq<Arrival>): (w: Window)
    ensures |w.lines| + |w.rest| <= |q|
    ensures w.rest == [] || |w.lines| < |q|
    decreases |q|
  {
    if q == [] then Window([], false, [])
    else match q[0]
      case Line(t) =>
        var w := ReadWindow(q[1..]);
        Window([t] + w.lines, w.faulted, w.rest)
      case Silence => Window([], false, q[1..])
      case Fault => Window([], true, q[1..])
  }

  // ---------------------------------------------------------------------------
  // Building the transaction result

  /** The lines kept by the capture loop: each raw line stripped, blank ones dropped. */
  function CaptureLines(raw: seq<string>): (c: seq<string>)
    ensures |c| <= |raw|
    ensures forall k :: 0 <= k < |c| ==> |c[k]| > 0
  {
    if raw == [] then []
    else
      var line := Strip(raw[0]);
      (if line != "" then [line] else []) + CaptureLines(raw[1..])
  }

  /** The bare protocol lines a transaction's data leaves out. */
  predicate IsBare(line: string) { line == "AT" || line == "OK" || line == "ERROR" }

  /** The captured lines other than a bare `AT` echo, `OK` or `ERROR`, in order. */
  function DataLines(c: seq<string>): (d: seq<string>)
    ensures |d| <= |c|
    ensures forall l :: l in d <==> l in c && !IsBare(l)
  {
    if c == [] then []
    else (if IsBare(c[0]) then [] else [c[0]]) + DataLines(c[1..])
  }

  /** The result built from the captured lines. */
  function BuildResult(c: seq<string>): (r: TransactionResult)
    ensures c == [] ==> r == TransactionResult(false, "")
  {
    TransactionResult(Contains(Join(c, "\n"), "OK"), Join(DataLines(c), "\n"))
  }

  /** Capturing is line by line: it distributes over concatenation. */
  lemma {:induction false} CaptureAppend(a: seq<string>, b: seq<string>)
    ensures CaptureLines(a + b) == CaptureLines(a) + CaptureLines(b)
  {
    if a == [] {
      assert a + b == b;
    } else {
      assert (a + b)[0] == a[0] && (a + b)[1..] == a[1..] + b;
      CaptureAppend(a[1..], b);
    }
  }

  /** One step of the capture loop: reading the line at the head of the queue
      moves it, stripped if not blank, from the pending window to the captured
      lines. */
  lemma CaptureStep(acc: seq<string>, q: seq<Arrival>)
    requires q != [] && q[0].Line?
    ensures ReadWindow(q).faulted == ReadWindow(q[1..]).faulted
    ensures ReadWindow(q).rest == ReadWindow(q[1..]).rest
    ensures var line := Strip(q[0].text);
      acc + CaptureLines(ReadWindow(q).lines)
      == (if line != "" then acc + [line] else acc) + CaptureLines(ReadWindow(q[1..]).lines)
  {
    assert ReadWindow(q).lines == [q[0].text] + ReadWindow(q[1..]).lines;
    CaptureCons(acc, q[0].text, ReadWindow(q[1..]).lines);
  }

  lemma CaptureCons(acc: seq<string>, text: string, later: seq<string>)
    ensures var line := Strip(text);
      acc + CaptureLines([text] + later)
      == (if line != "" then acc + [line] else acc) + CaptureLines(later)
  {
    var line := Strip(text);
    var kept := if line != "" then [line] else [];
    assert ([text] + later)[0] == text && ([text] + later)[1..] == later;
    assert CaptureLines([text] + later) == kept + CaptureLines(later);
    assert acc + (kept + CaptureLines(later)) == (acc + kept) + CaptureLines(later);
    if line == "" {
      assert acc + kept == acc;
    }
  }

  /** One raw line is kept, stripped, exactly when it is not blank. */
  lemma CaptureOne(line: string)
    ensures CaptureLines([line]) == if Strip(line) == "" then [] else [Strip(line)]
  {
    assert [line][1..] == [];
  }

  lemma {:induction false} DataLinesAppend(a: seq<string>, b: seq<string>)
    ensures DataLines(a + b) == DataLines(a) + DataLines(b)
  {
    if a == [] {
      assert a + b == b;
    } else {
      assert (a + b)[0] == a[0] && (a + b)[1..] == a[1..] + b;
      DataLinesAppend(a[1..], b);
    }
  }

  /** `success` holds exactly when some captured line contains `OK`. */
  lemma SuccessIffSomeLineHasOk(c: seq<string>)
    ensures BuildResult(c).success <==> exists k :: 0 <= k < |c| && Contains(c[k], "OK")
  {
    ContainsJoin(c, '\n', "OK");
  }

  /** Read back line by line, `data` is exactly the non-bare captured lines, so
      no line of it is a bare `AT`, `OK` or `ERROR`. */
  lemma DataHasNoBareLine(c: seq<string>)
    requires forall k :: 0 <= k < |c| ==> '\n' !in c[k]
    ensures var d := DataLines(c); d != [] ==> Split(BuildResult(c).data, '\n') == d
    ensures var lines := Split(BuildResult(c).data, '\n');
      forall k :: 0 <= k < |lines| ==> !IsBare(lines[k])
  {
    var d := DataLines(c);
    if d == [] {
      assert Split("", '\n') == [""];
    } else {
      assert forall k :: 0 <= k < |d| ==> d[k] in c;
      SplitJoin(d, '\n');
      assert forall k :: 0 <= k < |d| ==> d[k] in d;
    }
  }

  lemma OkNeedsK(s: string)
    requires 'K' !in s
    ensures !Contains(s, "OK")
  {
    forall i | 0 <= i <= |s| - 2
      ensures !OccursAt(s, "OK", i)
    {
      assert s[i..i + 2][1] == s[i + 1];
    }
  }

  lemma OkNotInEchoOrError()
    ensures !Contains("AT", "OK") && !Contains("ERROR", "OK")
  {
    OkNeedsK("AT");
    OkNeedsK("ERROR");
  }

  /** A reply made only of the `AT` echo and `ERROR` lines fails with empty data. */
  lemma EchoAndErrorOnlyFails(c: seq<string>)
    requires forall k :: 0 <= k < |c| ==> c[k] == "AT" || c[k] == "ERROR"
    ensures BuildResult(c) == TransactionResult(false, "")
  {
    OkNotInEchoOrError();
    SuccessIffSomeLineHasOk(c);
    assert DataLines(c) == [] by {
      if DataLines(c) != [] { assert DataLines(c)[0] in DataLines(c); }
    }
  }

  /** Only the literal `AT` echo is dropped: the echo of `ATI` is data. */
  lemma OnlyLiteralEchoDropped(c: seq<string>, other: string)
    requires other in c && !IsBare(other)
    ensures other in DataLines(c)
  {
  }

  // ---------------------------------------------------------------------------
  // send_at_command

  /** One transaction: write `command` and CRLF, read one window, build the result.
      On a closed link nothing is written or read. */
  function Send(s: State, command: string): (r: Run<TransactionResult>)
    ensures r.post.isOpen == s.isOpen && r.post.baudrate == s.baudrate
    ensures r.post.readTimeout == s.readTimeout && r.post.disconnects == s.disconnects
    ensures r.post.written == s.written + (if s.isOpen then [CommandLine(command)] else [])
    ensures !s.isOpen ==> r == Run(Done(TransactionResult(false, "")), s)
    ensures s.isOpen ==> r.post.incoming == ReadWindow(s.incoming).rest
    ensures s.isOpen ==> (r.out.Raised? <==> ReadWindow(s.incoming).faulted)
    ensures s.isOpen && !ReadWindow(s.incoming).faulted ==>
      r.out == Done(BuildResult(CaptureLines(ReadWindow(s.incoming).lines)))
  {
    if !s.isOpen then Run(Done(TransactionResult(false, "")), s)
    else
      var w := ReadWindow(s.incoming);
      var s' := s.(incoming := w.rest, written := s.written + [CommandLine(command)]);
      if w.faulted then Run(Raised, s')
      else Run(Done(BuildResult(CaptureLines(w.lines))), s')
  }

  /** A silent modem (nothing before the deadline) gives failure with empty data. */
  lemma SilentModemFails(s: State, command: string)
    requires s.isOpen && ReadWindow(s.incoming).lines == [] && !ReadWindow(s.incoming).faulted
    ensures Send(s, command).out == Done(TransactionResult(false, ""))
  {
    assert !OccursAt("", "OK", 0);
  }

  // ---------------------------------------------------------------------------
  // parse_response_value

  /** The integer in the first whitespace-delimited token after the first
      occurrence of `prefix` (up to its next occurrence), or None. An empty
      prefix is None too: str.split('') raises ValueError, which is caught. */
  function ParseResponseValue(data: string, prefix: string): (r: Option<int>)
    ensures !Contains(data, prefix) || prefix == [] ==> r == None
    ensures prefix != [] && Contains(data, prefix) && FirstToken(Strip(SecondPiece(data, prefix))).None? ==> r == None
    ensures prefix != [] && Contains(data, prefix) && FirstToken(Strip(SecondPiece(data, prefix))).Some? ==>
      r == ParseInt(FirstToken(Strip(SecondPiece(data, prefix))).value)
    ensures r.Some? <==>
      prefix != [] && Contains(data, prefix) && FirstToken(Strip(SecondPiece(data, prefix))).Some?
      && IsIntLiteral(FirstToken(Strip(SecondPiece(data, prefix))).value)
  {
    if !Contains(data, prefix) then None
    else if prefix == [] then None
    else match FirstToken(Strip(SecondPiece(data, prefix)))
      case None => None
      case Some(t) => ParseInt(t)
  }

  /** The prefix a reply value is read after: not empty, and not starting
      with a space, a digit or a minus sign. */
  predicate ValuePrefix(prefix: string)
  {
    prefix != [] && !IsSpace(prefix[0]) && !IsDigit(prefix[0]) && prefix[0] != '-'
  }

  /** No occurrence of `prefix` starts inside ` <int>`. */
  lemma NoOccurrenceInValue(data: string, lead: string, prefix: string, v: int, j: int)
    requires ValuePrefix(prefix)
    requires StartsWith(data, lead + " " + IntText(v))
    requires |lead| <= j <= |lead| + |IntText(v)|
    ensures !OccursAt(data, prefix, j)
  {
    var head := lead + " " + IntText(v);
    assert data[..|head|] == head;
    assert data[j] == head[j];
    if j > |lead| {
      assert head[j] == IntText(v)[j - |lead| - 1];
    }
  }

  /** The first occurrence of `prefix` in `<pre><prefix>...` is at |pre| when
      the prefix does not occur earlier. */
  lemma FirstOccurrenceAfter(data: string, pre: string, prefix: string)
    requires prefix != [] && StartsWith(data, pre + prefix)
    requires forall j :: 0 <= j < |pre| ==> !OccursAt(pre + prefix, prefix, j)
    ensures Contains(data, prefix) && IndexFrom(data, prefix, 0) == Some(|pre|)
  {
    var head := pre + prefix;
    assert data[..|head|] == head;
    assert data[|pre|..|pre| + |prefix|] == head[|pre|..] == prefix;
    assert OccursAt(data, prefix, |pre|);
    IndexFromContains(data, prefix);
    var i := IndexFrom(data, prefix, 0).value;
    if i < |pre| {
      assert data[i..i + |prefix|] == head[i..i + |prefix|];
      assert OccursAt(head, prefix, i);
    }
  }

  /** In `<lead> <int><post>`, the text from the end of `lead` up to the
      next occurrence of `prefix` (or the end) is the space, the integer's
      text, and a tail that starts with whitespace (or is empty). */
  lemma ValueSegment(data: string, lead: string, prefix: string, v: int, post: string) returns (tail: string)
    requires ValuePrefix(prefix)
    requires post == [] || IsSpace(post[0])
    requires data == lead + " " + IntText(v) + post
    ensures (match IndexFrom(data, prefix, |lead|)
             case None => data[|lead|..]
             case Some(j) => data[|lead|..j]) == " " + IntText(v) + tail
    ensures tail == [] || IsSpace(tail[0])
  {
    var d := IntText(v);
    var start := |lead|;
    assert StartsWith(data, lead + " " + d);
    match IndexFrom(data, prefix, start) {
      case None =>
        tail := post;
        assert data[start..] == " " + d + tail;
      case Some(j) =>
        if j <= start + |d| {
          NoOccurrenceInValue(data, lead, prefix, v, j);
        }
        tail := data[start + 1 + |d|..j];
        assert data[start..j] == " " + d + tail;
        assert tail == post[..j - start - 1 - |d|];
    }
  }

  /** In a reply `<pre><prefix> <int><post>`, the piece after the first
      prefix is the space, the integer's text, and a tail that starts with
      whitespace (or is empty). */
  lemma ReplyPiece(pre: string, prefix: string, v: int, post: string) returns (tail: string)
    requires ValuePrefix(prefix)
    requires post == [] || IsSpace(post[0])
    requires forall j :: 0 <= j < |pre| ==> !OccursAt(pre + prefix, prefix, j)
    ensures Contains(pre + prefix + " " + IntText(v) + post, prefix)
    ensures SecondPiece(pre + prefix + " " + IntText(v) + post, prefix) == " " + IntText(v) + tail
    ensures tail == [] || IsSpace(tail[0])
  {
    var data := pre + prefix + " " + IntText(v) + post;
    assert StartsWith(data, pre + prefix) by {
      assert data[..|pre + prefix|] == pre + prefix;
    }
    FirstOccurrenceAfter(data, pre, prefix);
    tail := ValueSegment(data, pre + prefix, prefix, v, post);
  }

  /** The first token of ` <word><tail>`, stripped or not, is the word. */
  lemma TokenAfterSpace(word: string, tail: string)
    requires word != [] && NoSpace(word)
    requires tail == [] || IsSpace(tail[0])
    ensures FirstToken(Strip(" " + word + tail)) == Some(word)
  {
    var piece := " " + word + tail;
    FirstTokenOfStrip(piece);
    TrimStartFacts(piece, Spaces);
    assert TrimStart(piece, Spaces) == word + tail by {
      assert piece[1..] == word + tail;
      TrimStartNoop(word + tail, Spaces);
    }
    TokenOfWord(word, tail);
  }

  /** A reply holding `<prefix> <int>` followed by whitespace (or nothing),
      with no earlier occurrence of the prefix (an echoed query, other lines),
      is read back as that integer. */
  lemma ReadsBackReportedValue(pre: string, prefix: string, v: int, post: string)
    requires ValuePrefix(prefix)
    requires post == [] || IsSpace(post[0])
    requires forall j :: 0 <= j < |pre| ==> !OccursAt(pre + prefix, prefix, j)
    ensures ParseResponseValue(pre + prefix + " " + IntText(v) + post, prefix) == Some(v)
  {
    var tail := ReplyPiece(pre, prefix, v, post);
    TokenAfterSpace(IntText(v), tail);
    ParseIntText(v);
  }

  /** `+CFUN:` first occurs at the end of the echoed query line. */
  lemma EchoHidesNoPrefix(j: int)
    requires 0 <= j < |"AT+CFUN?\n"|
    ensures !OccursAt("AT+CFUN?\n+CFUN:", "+CFUN:", j)
  {
    var h := "AT+CFUN?\n+CFUN:";
    if j == 2 {
      assert h[7] == '?';
      assert h[j..j + 6][5] == '?';
    } else {
      assert h[j..j + 6][0] == h[j];
    }
  }

  /** The echo of the query does not hide the value: the data `AT+CFUN?`
      then `+CFUN: <v>` reads back v. */
  lemma EchoedQueryReadsBack(v: int)
    ensures ParseResponseValue("AT+CFUN?\n" + "+CFUN:" + " " + IntText(v), "+CFUN:") == Some(v)
  {
    var pre, prefix := "AT+CFUN?\n", "+CFUN:";
    forall j | 0 <= j < |pre|
      ensures !OccursAt(pre + prefix, prefix, j)
    {
      EchoHidesNoPrefix(j);
    }
    ReadsBackReportedValue(pre, prefix, v, "");
    assert pre + prefix + " " + IntText(v) + "" == pre + prefix + " " + IntText(v);
  }

  // ---------------------------------------------------------------------------
  // check_and_set_status / check_and_set_text_status / verify_module

  /** Numeric reconciler: query, read the value after `prefix`, and send
      `setCmd` only when the value differs from `expected`. */
  function ReconcileNumeric(s: State, query: string, prefix: string, expected: int, setCmd: string): (r: Run<bool>)
    ensures var first := Send(s, query);
      var reported := if first.out.Done? && first.out.value.success
                      then ParseResponseValue(first.out.value.data, prefix) else None;
      && (first.out.Raised? ==> r == Run(Raised, first.post))
      && (first.out.Done? && (reported.None? || reported == Some(expected)) ==>
            r == Run(Done(reported == Some(expected)), first.post))
      && (first.out.Done? && reported.Some? && reported != Some(expected) ==>
            var second := Send(first.post, setCmd);
            r.post == second.post
            && r.out == (if second.out.Raised? then Raised else Done(second.out.value.success)))
  {
    var first := Send(s, query);
    match first.out
    case Raised => Run(Raised, first.post)
    case Done(reply) =>
      if !reply.success then Run(Done(false), first.post)
      else match ParseResponseValue(reply.data, prefix)
        case None => Run(Done(false), first.post)
        case Some(v) =>
          if v == expected then Run(Done(true), first.post)
          else
            var second := Send(first.post, setCmd);
            match second.out
            case Raised => Run(Raised, second.post)
            case Done(setReply) => Run(Done(setReply.success), second.post)
  }

  /** Textual reconciler: query, and when `ready` does not occur in the data,
      send the supplied corrective command if there is one. The `prefix`
      argument is accepted and never used. */
  function ReconcileText(s: State, query: string, prefix: string, ready: string,
                         supplied: Option<string>): (r: Run<bool>)
    ensures var first := Send(s, query);
      && (first.out.Raised? ==> r == Run(Raised, first.post))
      && (first.out.Done? && (!first.out.value.success || Contains(first.out.value.data, ready)
                              || supplied.None?) ==>
            r == Run(Done(first.out.value.success && Contains(first.out.value.data, ready)), first.post))
      && (first.out.Done? && first.out.value.success && !Contains(first.out.value.data, ready)
          && supplied.Some? ==>
            var second := Send(first.post, supplied.value);
            r.post == second.post
            && r.out == (if second.out.Raised? then Raised else Done(second.out.value.success)))
  {
    var first := Send(s, query);
    match first.out
    case Raised => Run(Raised, first.post)
    case Done(reply) =>
      if !reply.success then Run(Done(false), first.post)
      else if Contains(reply.data, ready) then Run(Done(true), first.post)
      else match supplied
        case None => Run(Done(false), first.post)
        case Some(cmd) =>
          var second := Send(first.post, cmd);
          match second.out
          case Raised => Run(Raised, second.post)
          case Done(setReply) => Run(Done(setReply.success), second.post)
  }

  /** On an open link the numeric reconciler writes the query, then the set
      command exactly when a value was parsed and differs from the expected one;
      an unparsable or matching value sends nothing more. */
  lemma NumericReconcileTrace(s: State, query: string, prefix: string, expected: int, setCmd: string)
    requires s.isOpen
    ensures var first := Send(s, query);
      var reported := if first.out.Done? && first.out.value.success
                      then ParseResponseValue(first.out.value.data, prefix) else None;
      var setSent := first.out.Done? && reported.Some? && reported != Some(expected);
      var r := ReconcileNumeric(s, query, prefix, expected, setCmd);
      && r.post.written == s.written + [CommandLine(query)] + (if setSent then [CommandLine(setCmd)] else [])
      && (reported == Some(expected) ==> r.out == Done(true))
      && (first.out.Done? && reported.None? ==> r.out == Done(false))
  {
  }

  /** On an open link the textual reconciler writes the query, then the
      supplied command exactly when the query succeeded without `ready` in its
      data and a command was supplied. */
  lemma TextReconcileTrace(s: State, query: string, prefix: string, ready: string, supplied: Option<string>)
    requires s.isOpen
    ensures var first := Send(s, query);
      var pending := first.out.Done? && first.out.value.success && !Contains(first.out.value.data, ready);
      var r := ReconcileText(s, query, prefix, ready, supplied);
      && r.post.written == s.written + [CommandLine(query)]
                           + (if pending && supplied.Some? then [CommandLine(supplied.value)] else [])
      && (first.out.Done? && first.out.value.success && Contains(first.out.value.data, ready) ==> r.out == Done(true))
      && (pending && supplied.None? ==> r.out == Done(false))
  {
  }

  /** `ATI` succeeds: the module is accepted whether or not it names itself SIM800. */
  function VerifyModuleRun(s: State): (r: Run<bool>)
    ensures r.post == Send(s, "ATI").post
    ensures r.out.Raised? <==> Send(s, "ATI").out.Raised?
    ensures r.out.Done? ==> r.out.value == Send(s, "ATI").out.value.success
  {
    var q := Send(s, "ATI");
    match q.out
    case Raised => Run(Raised, q.post)
    case Done(reply) => Run(Done(reply.success), q.post)
  }

  // ---------------------------------------------------------------------------
  // connect / disconnect / detect_baudrate

  /** Opening the port at the configured speed and timeout. */
  function ConnectRun(cfg: Config, s: State): (r: Run<bool>)
    ensures r.out == Done(cfg.portAvailable)
    ensures !cfg.portAvailable ==> r.post == s
    ensures cfg.portAvailable ==> r.post == s.(isOpen := true, readTimeout := cfg.timeout)
  {
    if cfg.portAvailable then Run(Done(true), s.(isOpen := true, readTimeout := cfg.timeout))
    else Run(Done(false), s)
  }

  /** Closing the link (a no-op on the link when it is already closed). */
  function DisconnectState(s: State): (t: State)
    ensures !t.isOpen && t.disconnects == s.disconnects + 1
    ensures t == s.(isOpen := false, disconnects := s.disconnects + 1)
  {
    s.(isOpen := false, disconnects := s.disconnects + 1)
  }

  /** The baud-rate scan from candidate `k` on: set the speed, reopen the link
      with the probe timeout, send `AT`; the first success restores the normal
      timeout and stops the scan. An unopenable port or a raised probe moves on
      to the next speed. */
  function DetectFrom(cfg: Config, s: State, k: nat): (r: Run<bool>)
    ensures r.out.Done?
    decreases |Speeds| - k
  {
    if k >= |Speeds| then Run(Done(false), s)
    else
      var closed := s.(baudrate := Speeds[k], isOpen := false);
      if !cfg.portAvailable then DetectFrom(cfg, closed, k + 1)
      else
        var probe := Send(closed.(isOpen := true, readTimeout := ProbeTimeout), "AT");
        if probe.out.Done? && probe.out.value.success then
          Run(Done(true), probe.post.(readTimeout := cfg.timeout))
        else DetectFrom(cfg, probe.post.(isOpen := false), k + 1)
  }

  /** Whether the `AT` probe read from queue `q` succeeds: no raised read, and
      `OK` among the captured lines. */
  predicate ProbeAnswers(q: seq<Arrival>) {
    var w := ReadWindow(q);
    !w.faulted && Contains(Join(CaptureLines(w.lines), "\n"), "OK")
  }

  /** The queue left after `n` probes. */
  function AfterProbes(q: seq<Arrival>, n: nat): seq<Arrival>
    decreases n
  {
    if n == 0 then q else AfterProbes(ReadWindow(q).rest, n - 1)
  }

  /** The index of the first candidate from `k` on whose probe answers, or
      |Speeds| when none does; `q` is the queue at the probe of candidate `k`. */
  function FirstAnswer(q: seq<Arrival>, k: nat): (n: nat)
    ensures k <= n <= |Speeds| || (k > |Speeds| && n == |Speeds|)
    decreases |Speeds| - k
  {
    if k >= |Speeds| then |Speeds|
    else if ProbeAnswers(q) then k
    else FirstAnswer(ReadWindow(q).rest, k + 1)
  }

  /** n copies of the probe line. */
  function Probes(n: nat): (r: seq<string>)
    ensures |r| == n && forall i :: 0 <= i < n ==> r[i] == CommandLine("AT")
  {
    if n == 0 then [] else Probes(n - 1) + [CommandLine("AT")]
  }

  /** FirstAnswer names the first answering candidate. */
  lemma {:induction false} FirstAnswerIsFirst(q: seq<Arrival>, k: nat)
    requires k <= |Speeds|
    ensures FirstAnswer(q, k) < |Speeds| ==> ProbeAnswers(AfterProbes(q, FirstAnswer(q, k) - k))
    ensures forall i :: 0 <= i < FirstAnswer(q, k) - k ==> !ProbeAnswers(AfterProbes(q, i))
    decreases |Speeds| - k
  {
    if k < |Speeds| && !ProbeAnswers(q) {
      var q' := ReadWindow(q).rest;
      FirstAnswerIsFirst(q', k + 1);
      var n := FirstAnswer(q, k);
      assert n == FirstAnswer(q', k + 1);
      forall i | 0 <= i < n - k
        ensures !ProbeAnswers(AfterProbes(q, i))
      {
        if i > 0 { assert AfterProbes(q, i) == AfterProbes(q', i - 1); }
      }
      if n < |Speeds| { assert AfterProbes(q, n - k) == AfterProbes(q', n - (k + 1)); }
    }
  }

  /** The probe at one speed succeeds exactly when ProbeAnswers holds of the
      queue, and it consumes one window. */
  lemma ProbeIsSend(s: State)
    requires s.isOpen
    ensures var probe := Send(s, "AT");
      && (probe.out.Done? && probe.out.value.success <==> ProbeAnswers(s.incoming))
      && probe.post.incoming == ReadWindow(s.incoming).rest
      && probe.post.written == s.written + Probes(1)
  {
  }

  /** How many probes the scan from candidate `k` writes. */
  function Tried(cfg: Config, q: seq<Arrival>, k: nat): nat
    requires k < |Speeds|
  {
    var n := FirstAnswer(q, k);
    if !cfg.portAvailable then 0 else if n < |Speeds| then n - k + 1 else |Speeds| - k
  }

  /** The scan succeeds exactly when the port opens and some candidate from `k`
      on answers; it never calls disconnect. */
  lemma {:induction false} DetectResult(cfg: Config, s: State, k: nat)
    requires k < |Speeds|
    ensures var r := DetectFrom(cfg, s, k);
      && r.out == Done(cfg.portAvailable && FirstAnswer(s.incoming, k) < |Speeds|)
      && r.post.disconnects == s.disconnects
    decreases |Speeds| - k
  {
    var closed := s.(baudrate := Speeds[k], isOpen := false);
    if !cfg.portAvailable {
      if k + 1 < |Speeds| { DetectResult(cfg, closed, k + 1); }
    } else {
      var probing := closed.(isOpen := true, readTimeout := ProbeTimeout);
      ProbeIsSend(probing);
      var next := Send(probing, "AT").post.(isOpen := false);
      if !ProbeAnswers(s.incoming) && k + 1 < |Speeds| {
        DetectResult(cfg, next, k + 1);
      }
    }
  }

  /** Where the scan leaves the link: on success open at the first answering
      speed with the normal timeout, on failure closed at the last speed. */
  lemma {:induction false} DetectLink(cfg: Config, s: State, k: nat)
    requires k < |Speeds|
    ensures var r := DetectFrom(cfg, s, k);
      var n := FirstAnswer(s.incoming, k);
      && (r.out == Done(true) ==> n < |Speeds| && r.post.baudrate == Speeds[n]
                                  && r.post.isOpen && r.post.readTimeout == cfg.timeout)
      && (r.out == Done(false) ==> r.post.baudrate == Speeds[|Speeds| - 1] && !r.post.isOpen)
    decreases |Speeds| - k
  {
    var closed := s.(baudrate := Speeds[k], isOpen := false);
    if !cfg.portAvailable {
      if k + 1 < |Speeds| { DetectLink(cfg, closed, k + 1); }
    } else {
      var probing := closed.(isOpen := true, readTimeout := ProbeTimeout);
      ProbeIsSend(probing);
      var next := Send(probing, "AT").post.(isOpen := false);
      if !ProbeAnswers(s.incoming) && k + 1 < |Speeds| {
        DetectLink(cfg, next, k + 1);
      }
    }
  }

  lemma ProbesSplit(m: nat)
    ensures Probes(m + 1) == Probes(1) + Probes(m)
  {
    assert forall i :: 0 <= i < m + 1 ==> Probes(m + 1)[i] == (Probes(1) + Probes(m))[i];
  }

  /** The scan writes one `AT` per speed it probes, up to and including the
      first that answers, and reads one window per probe; with the port
      unavailable it writes and reads nothing. */
  lemma {:induction false} DetectTraffic(cfg: Config, s: State, k: nat)
    requires k < |Speeds|
    ensures DetectFrom(cfg, s, k).post.written == s.written + Probes(Tried(cfg, s.incoming, k))
    ensures DetectFrom(cfg, s, k).post.incoming == AfterProbes(s.incoming, Tried(cfg, s.incoming, k))
    decreases |Speeds| - k
  {
    if !cfg.portAvailable {
      var closed := s.(baudrate := Speeds[k], isOpen := false);
      if k + 1 < |Speeds| { DetectTraffic(cfg, closed, k + 1); }
      assert s.written + Probes(0) == s.written;
    } else {
      var next := ProbeStep(cfg, s, k);
      if !ProbeAnswers(s.incoming) {
        if k + 1 < |Speeds| {
          DetectTraffic(cfg, next, k + 1);
          TrafficAfterMiss(cfg, s, k, next);
        } else {
          ProbesSplit(0);
        }
      }
    }
  }

  /** A missed probe adds one `AT` and one window to the traffic of the rest of
      the scan. */
  lemma TrafficAfterMiss(cfg: Config, s: State, k: nat, next: State)
    requires k + 1 < |Speeds| && cfg.portAvailable && !ProbeAnswers(s.incoming)
    requires next.written == s.written + Probes(1) && next.incoming == ReadWindow(s.incoming).rest
    requires DetectFrom(cfg, s, k) == DetectFrom(cfg, next, k + 1)
    requires DetectFrom(cfg, next, k + 1).post.written == next.written + Probes(Tried(cfg, next.incoming, k + 1))
    requires DetectFrom(cfg, next, k + 1).post.incoming == AfterProbes(next.incoming, Tried(cfg, next.incoming, k + 1))
    ensures DetectFrom(cfg, s, k).post.written == s.written + Probes(Tried(cfg, s.incoming, k))
    ensures DetectFrom(cfg, s, k).post.incoming == AfterProbes(s.incoming, Tried(cfg, s.incoming, k))
  {
    var m := Tried(cfg, next.incoming, k + 1);
    assert FirstAnswer(s.incoming, k) == FirstAnswer(next.incoming, k + 1);
    assert Tried(cfg, s.incoming, k) == m + 1;
    ProbesSplit(m);
    assert AfterProbes(s.incoming, m + 1) == AfterProbes(next.incoming, m);
  }

  /** One probe of the scan with the port available: on an answer the scan
      stops after it; otherwise it continues from the state the probe left,
      one `AT` written and one window read. */
  lemma ProbeStep(cfg: Config, s: State, k: nat) returns (next: State)
    requires k < |Speeds| && cfg.portAvailable
    ensures next.written == s.written + Probes(1) && next.incoming == ReadWindow(s.incoming).rest
    ensures ProbeAnswers(s.incoming) ==>
      DetectFrom(cfg, s, k).post.written == s.written + Probes(1)
      && DetectFrom(cfg, s, k).post.incoming == next.incoming
    ensures !ProbeAnswers(s.incoming) ==> DetectFrom(cfg, s, k) == DetectFrom(cfg, next, k + 1)
  {
    var probing := s.(baudrate := Speeds[k], isOpen := false).(isOpen := true, readTimeout := ProbeTimeout);
    ProbeIsSend(probing);
    next := Send(probing, "AT").post.(isOpen := false);
  }

  // ---------------------------------------------------------------------------
  // The echo step shared by setup_connection, initialize and read_and_connect

  /** Send `ATE0`; when it fails with empty data (the modem is silent), detect
      the speed, and after a successful detection send `ATE0` again, ignoring
      its result. False only when detection fails. */
  function DisableEchoRun(cfg: Config, s: State): (r: Run<bool>)
    ensures var echo := Send(s, "ATE0");
      && (echo.out.Raised? ==> r == Run(Raised, echo.post))
      && (echo.out.Done? && !(echo.out.value == TransactionResult(false, "")) ==>
            r == Run(Done(true), echo.post))
      && (echo.out == Done(TransactionResult(false, "")) ==>
            var d := DetectFrom(cfg, echo.post, 0);
            && (d.out == Done(false) ==> r == d)
            && (d.out == Done(true) ==> r.post == Send(d.post, "ATE0").post
                                        && r.out == (if Send(d.post, "ATE0").out.Raised? then Raised else Done(true))))
  {
    var echo := Send(s, "ATE0");
    match echo.out
    case Raised => Run(Raised, echo.post)
    case Done(reply) =>
      if !reply.success && reply.data == "" then
        var d := DetectFrom(cfg, echo.post, 0);
        if d.out == Done(false) then d
        else
          var retry := Send(d.post, "ATE0");
          if retry.out.Raised? then Run(Raised, retry.post) else Run(Done(true), retry.post)
      else Run(Done(true), echo.post)
  }

  /** The echo step never disconnects the link. */
  lemma EchoStepKeepsLink(cfg: Config, s: State)
    ensures DisableEchoRun(cfg, s).post.disconnects == s.disconnects
  {
    var echo := Send(s, "ATE0");
    if echo.out == Done(TransactionResult(false, "")) {
      DetectResult(cfg, echo.post, 0);
    }
  }

  /** setup_connection: open the link if it is not open, then the echo step;
      any raised error inside the step yields false. */
  function SetupConnectionRun(cfg: Config, s: State): (r: Run<bool>)
    ensures r.out.Done?
    ensures !s.isOpen && !cfg.portAvailable ==> r == Run(Done(false), s)
    ensures var openLink := if s.isOpen then s else s.(isOpen := true, readTimeout := cfg.timeout);
      (s.isOpen || cfg.portAvailable) ==>
        r.post == DisableEchoRun(cfg, openLink).post
        && r.out == Done(DisableEchoRun(cfg, openLink).out == Done(true))
  {
    if !s.isOpen && !cfg.portAvailable then Run(Done(false), s)
    else
      var openLink := if s.isOpen then s else s.(isOpen := true, readTimeout := cfg.timeout);
      var step := DisableEchoRun(cfg, openLink);
      Run(Done(step.out == Done(true)), step.post)
  }

  /** setup_connection fails only when the port cannot be opened or the modem is
      silent at `ATE0` and at every candidate speed. */
  lemma SetupFailsOnlyWhen(cfg: Config, s: State)
    requires s.isOpen || cfg.portAvailable
    requires SetupConnectionRun(cfg, s).out == Done(false)
    ensures var openLink := if s.isOpen then s else s.(isOpen := true, readTimeout := cfg.timeout);
      var echo := Send(openLink, "ATE0");
      echo.out.Raised?
      || (echo.out == Done(TransactionResult(false, ""))
          && (!cfg.portAvailable || FirstAnswer(echo.post.incoming, 0) == |Speeds|
              || Send(DetectFrom(cfg, echo.post, 0).post, "ATE0").out.Raised?))
  {
    var openLink := if s.isOpen then s else s.(isOpen := true, readTimeout := cfg.timeout);
    var echo := Send(openLink, "ATE0");
    if echo.out == Done(TransactionResult(false, "")) {
      DetectResult(cfg, echo.post, 0);
    }
  }

  // ---------------------------------------------------------------------------
  // The driver object

  class Modem {
    const portAvailable: bool
    const timeout: int
    var isOpen: bool
    var baudrate: int
    var readTimeout: int
    var incoming: seq<Arrival>
    var written: seq<string>
    ghost var disconnects: nat

    function Cfg(): Config { Config(portAvailable, timeout) }

    ghost function View(): State
      reads this
    {
      State(isOpen, baudrate, readTimeout, incoming, written, disconnects)
    }

    /** A driver whose link is not yet open. */
    constructor (portAvailable: bool, baudrate: int, timeout: int, incoming: seq<Arrival>)
      ensures Cfg() == Config(portAvailable, timeout)
      ensures View() == State(false, baudrate, timeout, incoming, [], 0)
    {
      this.portAvailable := portAvailable;
      this.timeout := timeout;
      this.baudrate := baudrate;
      this.readTimeout := timeout;
      this.isOpen := false;
      this.incoming := incoming;
      this.written := [];
      this.disconnects := 0;
    }

    method Connect() returns (ok: bool)
      modifies this
      ensures var run := ConnectRun(Cfg(), old(View())); Done(ok) == run.out && View() == run.post
    {
      if !portAvailable {
        return false;
      }
      isOpen, readTimeout := true, timeout;
      return true;
    }

    method Disconnect()
      modifies this
      ensures View() == DisconnectState(old(View()))
    {
      if isOpen {
        isOpen := false;
      }
      disconnects := disconnects + 1;
    }

    /** send_at_command: write the command, capture one window, build the result. */
    method SendAtCommand(command: string) returns (r: Outcome<TransactionResult>)
      modifies this
      ensures var run := Send(old(View()), command); r == run.out && View() == run.post
    {
      if !isOpen {
        return Done(TransactionResult(false, ""));
      }
      written := written + [CommandLine(command)];
      var responseLines := CaptureResponse();
      if incoming != [] {
        var ev := incoming[0];
        incoming := incoming[1..];
        if ev.Fault? {
          return Raised;
        }
      }
      return Done(BuildResult(responseLines));
    }

    /** The capture loop of send_at_command: read lines up to the window's exit,
        keeping each stripped non-blank line; the exit itself is left unread. */
    method CaptureResponse() returns (responseLines: seq<string>)
      modifies this
      ensures var w := ReadWindow(old(incoming));
        && responseLines == CaptureLines(w.lines)
        && ReadWindow(incoming) == w.(lines := [])
        && (incoming == [] || !incoming[0].Line?)
      ensures View() == old(View()).(incoming := incoming)
    {
      ghost var w := ReadWindow(incoming);
      responseLines := [];
      while incoming != [] && incoming[0].Line?
        invariant ReadWindow(incoming).faulted == w.faulted && ReadWindow(incoming).rest == w.rest
        invariant CaptureLines(w.lines) == responseLines + CaptureLines(ReadWindow(incoming).lines)
        invariant isOpen == old(isOpen) && baudrate == old(baudrate) && readTimeout == old(readTimeout)
        invariant written == old(written) && disconnects == old(disconnects)
        decreases |incoming|
      {
        CaptureStep(responseLines, incoming);
        var line := Strip(incoming[0].text);
        if line != "" {
          responseLines := responseLines + [line];
        }
        incoming := incoming[1..];
      }
      assert responseLines + [] == responseLines;
    }

    /** detect_baudrate: try each candidate speed in order. */
    method DetectBaudrate() returns (found: bool)
      modifies this
      ensures var run := DetectFrom(Cfg(), old(View()), 0); run.out == Done(found) && View() == run.post
    {
      var i := 0;
      while i < |Speeds|
        invariant 0 <= i <= |Speeds|
        invariant DetectFrom(Cfg(), View(), i) == DetectFrom(Cfg(), old(View()), 0)
      {
        baudrate := Speeds[i];
        isOpen := false;
        if portAvailable {
          isOpen, readTimeout := true, ProbeTimeout;
          var probe := SendAtCommand("AT");
          if probe.Done? && probe.value.success {
            readTimeout := timeout;
            return true;
          }
          isOpen := false;
        }
        i := i + 1;
      }
      return false;
    }

    method CheckAndSetStatus(query: string, prefix: string, expected: int, setCmd: string)
      returns (r: Outcome<bool>)
      modifies this
      ensures var run := ReconcileNumeric(old(View()), query, prefix, expected, setCmd);
        r == run.out && View() == run.post
    {
      var reply :- SendAtCommand(query);
      if !reply.success {
        return Done(false);
      }
      var current := ParseResponseValue(reply.data, prefix);
      if current.None? {
        return Done(false);
      }
      if current.value == expected {
        return Done(true);
      }
      var setReply :- SendAtCommand(setCmd);
      return Done(setReply.success);
    }

    method CheckAndSetTextStatus(query: string, prefix: string, ready: string, supplied: Option<string>)
      returns (r: Outcome<bool>)
      modifies this
      ensures var run := ReconcileText(old(View()), query, prefix, ready, supplied);
        r == run.out && View() == run.post
    {
      var reply :- SendAtCommand(query);
      if !reply.success {
        return Done(false);
      }
      if Contains(reply.data, ready) {
        return Done(true);
      }
      if supplied.None? {
        return Done(false);
      }
      var setReply :- SendAtCommand(supplied.value);
      return Done(setReply.success);
    }

    method VerifyModule() returns (r: Outcome<bool>)
      modifies this
      ensures var run := VerifyModuleRun(old(View())); r == run.out && View() == run.post
    {
      var reply :- SendAtCommand("ATI");
      return Done(reply.success);
    }

    /** The echo step shared by setup_connection, initialize and read_and_connect. */
    method DisableEcho() returns (r: Outcome<bool>)
      modifies this
      ensures var run := DisableEchoRun(Cfg(), old(View())); r == run.out && View() == run.post
    {
      var echo :- SendAtCommand("ATE0");
      if !echo.success && echo.data == "" {
        var found := DetectBaudrate();
        if !found {
          return Done(false);
        }
        var retry :- SendAtCommand("ATE0");
      }
      return Done(true);
    }

    method SetupConnection() returns (ok: bool)
      modifies this
      ensures var run := SetupConnectionRun(Cfg(), old(View())); Done(ok) == run.out && View() == run.post
    {
      if !isOpen {
        if !portAvailable {
          return false;
        }
        isOpen, readTimeout := true, timeout;
      }
      var step := DisableEcho();
      return step == Done(true);
    }
  }
}
