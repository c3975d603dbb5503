/** The initializer (SIM800CInitializer in the driver): the power, PIN and
    SMS-mode checks built on the two reconcilers (3GPP TS 27.007 sections 8.2
    and 8.3, 3GPP TS 27.005 section 3.2.3), and the initialization sequence. */
module InitSim800c {
  import opened TextOps
  import opened Sim800c

  /** The PIN supplier: the unlock command when a non-empty PIN is configured.
      `pin` is the configured value, None when it is not set. */
  function PinCommand(pin: Option<string>): (r: Option<string>)
    ensures r.Some? <==> pin.Some? && pin.value != ""
    ensures r.Some? ==> r.value == "AT+CPIN=" + pin.value && StartsWith(r.value, "AT+CPIN=")
  {
    if pin.Some? && pin.value != "" then Some("AT+CPIN=" + pin.value) else None
  }

  /** check_and_enable_power: functionality level 1 (full), set when different. */
  function PowerRun(s: State): Run<bool>
  {
    ReconcileNumeric(s, "AT+CFUN?", "+CFUN:", 1, "AT+CFUN=1")
  }

  /** check_and_set_pin: ready when READY occurs in the reply; otherwise the
      supplier's command, if any. */
  function PinRun(s: State, pin: Option<string>): Run<bool>
  {
    ReconcileText(s, "AT+CPIN?", "+CPIN:", "READY", PinCommand(pin))
  }

  /** check_and_set_sms_mode: message format 1 (text), set when different. */
  function SmsModeRun(s: State): Run<bool>
  {
    ReconcileNumeric(s, "AT+CMGF?", "+CMGF:", 1, "AT+CMGF=1")
  }

  /** A module already at full functionality is only queried. */
  lemma PowerAlreadyOn(s: State)
    requires s.isOpen
    requires Send(s, "AT+CFUN?").out.Done? && Send(s, "AT+CFUN?").out.value.success
    requires ParseResponseValue(Send(s, "AT+CFUN?").out.value.data, "+CFUN:") == Some(1)
    ensures PowerRun(s).out == Done(true)
    ensures PowerRun(s).post.written == s.written + [CommandLine("AT+CFUN?")]
  {
    NumericReconcileTrace(s, "AT+CFUN?", "+CFUN:", 1, "AT+CFUN=1");
  }

  /** A module at another functionality level is queried, then set. */
  lemma PowerSwitchedOn(s: State)
    requires s.isOpen
    requires Send(s, "AT+CFUN?").out.Done? && Send(s, "AT+CFUN?").out.value.success
    requires var v := ParseResponseValue(Send(s, "AT+CFUN?").out.value.data, "+CFUN:"); v.Some? && v != Some(1)
    ensures PowerRun(s).post.written == s.written + [CommandLine("AT+CFUN?"), CommandLine("AT+CFUN=1")]
  {
    NumericReconcileTrace(s, "AT+CFUN?", "+CFUN:", 1, "AT+CFUN=1");
  }

  /** Without a configured PIN a locked SIM is reported as a failure after the
      query alone. */
  lemma NoPinNoUnlock(s: State, pin: Option<string>)
    requires s.isOpen && (pin.None? || pin == Some(""))
    requires Send(s, "AT+CPIN?").out.Done? && Send(s, "AT+CPIN?").out.value.success
    requires !Contains(Send(s, "AT+CPIN?").out.value.data, "READY")
    ensures PinRun(s, pin).out == Done(false)
    ensures PinRun(s, pin).post.written == s.written + [CommandLine("AT+CPIN?")]
  {
    TextReconcileTrace(s, "AT+CPIN?", "+CPIN:", "READY", PinCommand(pin));
  }

  /** A ready SIM is only queried, whatever PIN is configured. */
  lemma PinReadyOnlyQueried(s: State, pin: Option<string>)
    requires s.isOpen
    requires Send(s, "AT+CPIN?").out.Done? && Send(s, "AT+CPIN?").out.value.success
    requires Contains(Send(s, "AT+CPIN?").out.value.data, "READY")
    ensures PinRun(s, pin).out == Done(true)
    ensures PinRun(s, pin).post.written == s.written + [CommandLine("AT+CPIN?")]
  {
    TextReconcileTrace(s, "AT+CPIN?", "+CPIN:", "READY", PinCommand(pin));
  }

  /** A locked SIM with a configured PIN gets the unlock command, and the
      result is that command's success. */
  lemma PinUnlockSent(s: State, pin: string)
    requires s.isOpen && pin != ""
    requires Send(s, "AT+CPIN?").out.Done? && Send(s, "AT+CPIN?").out.value.success
    requires !Contains(Send(s, "AT+CPIN?").out.value.data, "READY")
    ensures PinRun(s, Some(pin)).post.written
            == s.written + [CommandLine("AT+CPIN?"), CommandLine("AT+CPIN=" + pin)]
  {
    TextReconcileTrace(s, "AT+CPIN?", "+CPIN:", "READY", PinCommand(Some(pin)));
  }

  /** The checks after the echo step, in order, stopping at the first that
      does not succeed. */
  function ChecksRun(s: State, pin: Option<string>): (r: Run<bool>)
    ensures r.out == Done(true) <==>
      VerifyModuleRun(s).out == Done(true)
      && PowerRun(VerifyModuleRun(s).post).out == Done(true)
      && PinRun(PowerRun(VerifyModuleRun(s).post).post, pin).out == Done(true)
      && SmsModeRun(PinRun(PowerRun(VerifyModuleRun(s).post).post, pin).post).out == Done(true)
    ensures VerifyModuleRun(s).out != Done(true) ==> r == VerifyModuleRun(s)
    ensures VerifyModuleRun(s).out == Done(true) && PowerRun(VerifyModuleRun(s).post).out != Done(true) ==>
      r == PowerRun(VerifyModuleRun(s).post)
    ensures VerifyModuleRun(s).out == Done(true) && PowerRun(VerifyModuleRun(s).post).out == Done(true)
            && PinRun(PowerRun(VerifyModuleRun(s).post).post, pin).out != Done(true) ==>
      r == PinRun(PowerRun(VerifyModuleRun(s).post).post, pin)
  {
    var verified := VerifyModuleRun(s);
    if verified.out != Done(true) then verified
    else
      var power := PowerRun(verified.post);
      if power.out != Done(true) then power
      else
        var unlocked := PinRun(power.post, pin);
        if unlocked.out != Done(true) then unlocked
        else SmsModeRun(unlocked.post)
  }

  /** The body of initialize between connect and disconnect. */
  function InitSessionRun(cfg: Config, s: State, pin: Option<string>): (r: Run<bool>)
    ensures r.post.disconnects == s.disconnects
    ensures r.out == Done(true) <==>
      DisableEchoRun(cfg, s).out == Done(true) && ChecksRun(DisableEchoRun(cfg, s).post, pin).out == Done(true)
    ensures DisableEchoRun(cfg, s).out != Done(true) ==> r == DisableEchoRun(cfg, s)
    ensures DisableEchoRun(cfg, s).out == Done(true) ==> r == ChecksRun(DisableEchoRun(cfg, s).post, pin)
  {
    EchoStepKeepsLink(cfg, s);
    var echo := DisableEchoRun(cfg, s);
    if echo.out != Done(true) then echo
    else
      ChecksKeepLink(echo.post, pin);
      ChecksRun(echo.post, pin)
  }

  /** The checks never disconnect. */
  lemma ChecksKeepLink(s: State, pin: Option<string>)
    ensures ChecksRun(s, pin).post.disconnects == s.disconnects
  {
    var verified := VerifyModuleRun(s);
    assert verified.post.disconnects == s.disconnects;
    var power := PowerRun(verified.post);
    assert power.post.disconnects == s.disconnects;
    var unlocked := PinRun(power.post, pin);
    assert unlocked.post.disconnects == s.disconnects;
    assert SmsModeRun(unlocked.post).post.disconnects == s.disconnects;
  }

  /** initialize: connect; then the echo step and the checks, a raised error
      counting as failure; disconnect exactly once after a connect. */
  function InitializeRun(cfg: Config, s: State, pin: Option<string>): (r: Run<bool>)
    ensures r.out.Done?
    ensures !cfg.portAvailable ==> r == Run(Done(false), s)
    ensures cfg.portAvailable ==> !r.post.isOpen && r.post.disconnects == s.disconnects + 1
    ensures r.out == Done(true) <==>
      cfg.portAvailable && InitSessionRun(cfg, ConnectRun(cfg, s).post, pin).out == Done(true)
  {
    var c := ConnectRun(cfg, s);
    if c.out == Done(false) then c
    else
      var body := InitSessionRun(cfg, c.post, pin);
      Run(Done(body.out == Done(true)), DisconnectState(body.post))
  }

  /** Initialization succeeds exactly when the port opened, the echo step
      succeeded, and verification, power, PIN and SMS mode all succeeded in
      that order. */
  lemma InitializeSucceedsIffAllSteps(cfg: Config, s: State, pin: Option<string>)
    ensures InitializeRun(cfg, s, pin).out == Done(true) <==>
      var e := DisableEchoRun(cfg, ConnectRun(cfg, s).post);
      && cfg.portAvailable
      && e.out == Done(true)
      && VerifyModuleRun(e.post).out == Done(true)
      && PowerRun(VerifyModuleRun(e.post).post).out == Done(true)
      && PinRun(PowerRun(VerifyModuleRun(e.post).post).post, pin).out == Done(true)
      && SmsModeRun(PinRun(PowerRun(VerifyModuleRun(e.post).post).post, pin).post).out == Done(true)
  {
  }

  method CheckAndEnablePower(m: Modem) returns (r: Outcome<bool>)
    modifies m
    ensures var run := PowerRun(old(m.View())); r == run.out && m.View() == run.post
  {
    r := m.CheckAndSetStatus("AT+CFUN?", "+CFUN:", 1, "AT+CFUN=1");
  }

  method CheckAndSetPin(m: Modem, pin: Option<string>) returns (r: Outcome<bool>)
    modifies m
    ensures var run := PinRun(old(m.View()), pin); r == run.out && m.View() == run.post
  {
    r := m.CheckAndSetTextStatus("AT+CPIN?", "+CPIN:", "READY", PinCommand(pin));
  }

  method CheckAndSetSmsMode(m: Modem) returns (r: Outcome<bool>)
    modifies m
    ensures var run := SmsModeRun(old(m.View())); r == run.out && m.View() == run.post
  {
    r := m.CheckAndSetStatus("AT+CMGF?", "+CMGF:", 1, "AT+CMGF=1");
  }

  /** The steps inside initialize's try block. */
  method InitSession(m: Modem, pin: Option<string>) returns (r: Outcome<bool>)
    modifies m
    ensures var run := InitSessionRun(m.Cfg(), old(m.View()), pin); r == run.out && m.View() == run.post
  {
    var echoed :- m.DisableEcho();
    if !echoed {
      return Done(false);
    }
    var verified :- m.VerifyModule();
    if !verified {
      return Done(false);
    }
    var powered :- CheckAndEnablePower(m);
    if !powered {
      return Done(false);
    }
    var unlocked :- CheckAndSetPin(m, pin);
    if !unlocked {
      return Done(false);
    }
    var textMode :- CheckAndSetSmsMode(m);
    if !textMode {
      return Done(false);
    }
    return Done(true);
  }

  method Initialize(m: Modem, pin: Option<string>) returns (ok: bool)
    modifies m
    ensures var run := InitializeRun(m.Cfg(), old(m.View()), pin); Done(ok) == run.out && m.View() == run.post
  {
    var initialSuccess := m.Connect();
    if !initialSuccess {
      return false;
    }
    var outcome := InitSession(m, pin);
    m.Disconnect();
    return outcome == Done(true);
  }
}
