/** The server-side SSL context: construction (protocol mask, certificate check,
    native allocation), the run-once init that configures the native context,
    and the small helpers around it. */
module SslContext {
  import opened Wrappers
  import opened Protocols
  import opened Ciphers
  import opened Managers
  import opened Native

  const DefaultProtocol: string := "TLS"

  /** The values init hands the native context to read back its own defaults. */
  const ProbeSessionCacheSize: int := 20480
  const ProbeSessionTimeout: int := 300

  datatype CertificateVerification = VerifyNone | VerifyOptional | VerifyOptionalNoCa | VerifyRequired

  /** The host configuration. Paths are the results of resolving the configured
      relative paths (None where the resolution gives null). */
  datatype HostConfig = HostConfig(
    protocols: seq<string>,
    ciphers: string,
    insecureRenegotiation: bool,
    honorCipherOrder: bool,
    disableCompression: bool,
    disableSessionTickets: bool,
    sessionCacheSize: int,
    sessionTimeout: int,
    caCertificateFile: Option<string>,
    caCertificatePath: Option<string>,
    revocationFile: Option<string>,
    revocationPath: Option<string>,
    verification: CertificateVerification,
    verificationDepth: int)

  datatype CertificateConfig = CertificateConfig(
    certificateFile: Option<string>,
    keyFile: Option<string>,
    keyPassword: Option<string>)

  /** The session context handed to every engine; it refers to the native handle. */
  datatype SessionContext = OpenSslServerSessionContext(ctx: int)

  /** The log, reduced to the notices this class writes. */
  datatype Notice = OptionUnsupported(option: SslOption) | InitCalledMultipleTimes

  datatype ConstructionCause = CertificateRequired | InvalidProtocol(token: string) | FailedToMakeSslContext

  /** Every failure of the constructor comes out wrapped in this one error. */
  datatype ConstructionFailure = FailedToInitialiseSslContext(cause: ConstructionCause)

  datatype InitCause =
    | InvalidCipherExpression(expression: string)
    | MissingTrustManager
    | NativeCallFailed(call: NativeCall)

  /** Every failure of init comes out wrapped in a runtime exception. */
  datatype InitFailure = InitRuntimeException(cause: InitCause)

  /** What init depends on but does not define: which options the native
      library supports (a probe that fails to link counts as unsupported), the
      cipher-name converter, the cipher-expression parser (None when it throws),
      the NPN protocol list derived from the enabled protocol, and which native
      setters throw. */
  datatype Environment = Environment(
    supported: set<SslOption>,
    toOpenSsl: string -> string,
    parseExpression: string -> Option<seq<string>>,
    npnProtocols: Option<string> -> seq<string>,
    nativeThrows: NativeCall -> bool)

  // ---------------------------------------------------------------------------
  // Construction

  /** The outcome of the constructor: the certificate file is checked first,
      then the protocol mask, and only then is the native context made (make
      gives the handle and the fresh context, or None when it throws). */
  function Construction(config: HostConfig, certificate: CertificateConfig,
                        make: set<Protocol> -> Option<(int, NativeState)>)
    : (r: Result<(set<Protocol>, int, NativeState), ConstructionFailure>)
    ensures certificate.certificateFile.None? ==> r == Failure(FailedToInitialiseSslContext(CertificateRequired))
    ensures certificate.certificateFile.Some? && ProtocolMask(config.protocols).Failure? ==>
      r == Failure(FailedToInitialiseSslContext(InvalidProtocol(ProtocolMask(config.protocols).error.token)))
    ensures r.Success? ==>
      && certificate.certificateFile.Some?
      && ProtocolMask(config.protocols) == Success(r.value.0)
      && make(r.value.0) == Some((r.value.1, r.value.2))
  {
    if certificate.certificateFile.None? then Failure(FailedToInitialiseSslContext(CertificateRequired))
    else match ProtocolMask(config.protocols)
      case Failure(e) => Failure(FailedToInitialiseSslContext(InvalidProtocol(e.token)))
      case Success(mask) =>
        match make(mask)
        case None => Failure(FailedToInitialiseSslContext(FailedToMakeSslContext))
        case Some((handle, initial)) => Success((mask, handle, initial))
  }

  /** A missing certificate file or an unrecognised protocol name fails the
      construction whatever the native library would do: no native context is
      asked for, and the missing certificate is reported first. */
  lemma ConstructionFailsBeforeMake(config: HostConfig, certificate: CertificateConfig,
                                    make1: set<Protocol> -> Option<(int, NativeState)>,
                                    make2: set<Protocol> -> Option<(int, NativeState)>)
    requires certificate.certificateFile.None? || ProtocolMask(config.protocols).Failure?
    ensures Construction(config, certificate, make1) == Construction(config, certificate, make2)
    ensures Construction(config, certificate, make1).Failure?
    ensures certificate.certificateFile.None? ==>
      Construction(config, certificate, make1).error.cause == CertificateRequired
    ensures certificate.certificateFile.Some? ==>
      Construction(config, certificate, make1).error.cause.InvalidProtocol?
  {
  }

  // ---------------------------------------------------------------------------
  // The specification of init

  /** The four probe-then-set-or-clear rules, in the order init applies them. */
  function OptionRules(config: HostConfig): seq<(SslOption, bool)>
  {
    [ (AllowUnsafeLegacyRenegotiation, config.insecureRenegotiation),
      (CipherServerPreference, config.honorCipherOrder),
      (NoCompression, config.disableCompression),
      (NoTicket, config.disableSessionTickets) ]
  }

  /** One rule: a supported option is set when enabled and cleared otherwise;
      an unsupported one is left as it is. No other option moves. */
  function ApplyOptionRule(n: NativeState, option: SslOption, enabled: bool, supported: set<SslOption>): (r: NativeState)
    ensures option in supported ==> (option in r.options <==> enabled)
    ensures option !in supported ==> r.options == n.options
    ensures forall o :: o != option ==> (o in r.options <==> o in n.options)
    ensures r == n.(options := r.options)
  {
    if option !in supported then n
    else if enabled then n.(options := n.options + {option})
    else n.(options := n.options - {option})
  }

  function RuleNotice(option: SslOption, supported: set<SslOption>): seq<Notice>
  {
    if option in supported then [] else [OptionUnsupported(option)]
  }

  function ApplyOptionRules(n: NativeState, rules: seq<(SslOption, bool)>, supported: set<SslOption>): (r: NativeState)
    decreases |rules|
    ensures r == n.(options := r.options)
  {
    if rules == [] then n
    else ApplyOptionRules(ApplyOptionRule(n, rules[0].0, rules[0].1, supported), rules[1..], supported)
  }

  function RuleNotices(rules: seq<(SslOption, bool)>, supported: set<SslOption>): seq<Notice>
  {
    if rules == [] then [] else RuleNotice(rules[0].0, supported) + RuleNotices(rules[1..], supported)
  }

  predicate DistinctOptions(rules: seq<(SslOption, bool)>)
  {
    forall i, j :: 0 <= i < j < |rules| ==> rules[i].0 != rules[j].0
  }

  predicate Governs(rules: seq<(SslOption, bool)>, o: SslOption)
  {
    exists k :: 0 <= k < |rules| && rules[k].0 == o
  }

  /** How the table after its first rule relates to the whole table. */
  lemma GovernsRest(rules: seq<(SslOption, bool)>, o: SslOption)
    requires rules != []
    ensures Governs(rules, o) <==> rules[0].0 == o || Governs(rules[1..], o)
    ensures DistinctOptions(rules) ==> !Governs(rules[1..], rules[0].0) && DistinctOptions(rules[1..])
  {
    var rest := rules[1..];
    if Governs(rest, o) {
      var m :| 0 <= m < |rest| && rest[m].0 == o;
      assert rules[m + 1].0 == o;
    }
    if Governs(rules, o) && rules[0].0 != o {
      var k :| 0 <= k < |rules| && rules[k].0 == o;
      assert rest[k - 1].0 == o;
    }
    if DistinctOptions(rules) {
      forall m | 0 <= m < |rest| ensures rest[m].0 != rules[0].0 {
        assert rest[m] == rules[m + 1];
      }
      forall i, j | 0 <= i < j < |rest| ensures rest[i].0 != rest[j].0 {
        assert rest[i] == rules[i + 1] && rest[j] == rules[j + 1];
      }
    }
  }

  /** Applying a table of distinct rules: each supported option ends up set
      exactly when its flag is true, and every option that no supported rule
      governs keeps its membership. */
  lemma {:induction false} OptionRulesMeaning(n: NativeState, rules: seq<(SslOption, bool)>, supported: set<SslOption>)
    requires DistinctOptions(rules)
    decreases |rules|
    ensures forall k :: 0 <= k < |rules| && rules[k].0 in supported ==>
      (rules[k].0 in ApplyOptionRules(n, rules, supported).options <==> rules[k].1)
    ensures forall o :: (!Governs(rules, o) || o !in supported) ==>
      (o in ApplyOptionRules(n, rules, supported).options <==> o in n.options)
    ensures ApplyOptionRules(n, rules, supported) == n.(options := ApplyOptionRules(n, rules, supported).options)
  {
    if rules != [] {
      var n1 := ApplyOptionRule(n, rules[0].0, rules[0].1, supported);
      var rest := rules[1..];
      GovernsRest(rules, rules[0].0);
      OptionRulesMeaning(n1, rest, supported);
      var r := ApplyOptionRules(n, rules, supported);
      assert r == ApplyOptionRules(n1, rest, supported);
      forall k | 0 <= k < |rules| && rules[k].0 in supported
        ensures rules[k].0 in r.options <==> rules[k].1
      {
        if k != 0 {
          assert rest[k - 1] == rules[k];
        }
      }
      forall o | !Governs(rules, o) || o !in supported
        ensures o in r.options <==> o in n.options
      {
        GovernsRest(rules, o);
      }
    }
  }

  /** Every unsupported option of the table is reported by exactly one notice,
      in table order, and nothing else is reported. */
  lemma {:induction false} RuleNoticesMeaning(rules: seq<(SslOption, bool)>, supported: set<SslOption>)
    requires DistinctOptions(rules)
    decreases |rules|
    ensures forall x: Notice :: x in RuleNotices(rules, supported) <==>
      x.OptionUnsupported? && Governs(rules, x.option) && x.option !in supported
    ensures forall i, j :: 0 <= i < j < |RuleNotices(rules, supported)| ==>
      RuleNotices(rules, supported)[i] != RuleNotices(rules, supported)[j]
  {
    if rules != [] {
      var rest := rules[1..];
      GovernsRest(rules, rules[0].0);
      RuleNoticesMeaning(rest, supported);
      var head := RuleNotice(rules[0].0, supported);
      var tail := RuleNotices(rest, supported);
      assert RuleNotices(rules, supported) == head + tail;
      assert OptionUnsupported(rules[0].0) !in tail;
      forall x: Notice
        ensures x in head + tail <==> x.OptionUnsupported? && Governs(rules, x.option) && x.option !in supported
      {
        if x.OptionUnsupported? {
          GovernsRest(rules, x.option);
        }
      }
    }
  }

  /** The effective session cache size or timeout: a positive configured value,
      otherwise whatever the native context already had. */
  function EffectiveSessionValue(configured: int, current: int): (r: int)
    ensures r == configured || r == current
    ensures configured > 0 ==> r == configured
    ensures configured <= 0 ==> r == current
  {
    if configured > 0 then configured else current
  }

  /** The cipher step: the names reported by getCiphers and the string handed
      to the native cipher-suite setter, or the parser's failure. */
  function CipherStep(s: string, env: Environment): (r: Result<(seq<string>, string), InitCause>)
    ensures r.Failure? <==> !IsLegacyCipherString(s) && env.parseExpression(s).None?
    ensures r.Failure? ==> r.error == InvalidCipherExpression(s)
    ensures r.Success? && !IsLegacyCipherString(s) ==> r.value == (env.parseExpression(s).value, s)
    ensures r.Success? && IsLegacyCipherString(s) ==>
      && r.value.1 == env.toOpenSsl(s)
      && forall k :: 0 <= k < |r.value.0| ==> IsCipherName(r.value.0[k])
  {
    if IsLegacyCipherString(s) then Success((CipherNames(s), env.toOpenSsl(s)))
    else match env.parseExpression(s)
      case None => Failure(InvalidCipherExpression(s))
      case Some(list) => Success((list, s))
  }

  function CVerifyFor(v: CertificateVerification): (c: CVerify)
    ensures VerificationOf(c) == v
  {
    match v
    case VerifyNone => CVerifyNone
    case VerifyOptional => CVerifyOptional
    case VerifyOptionalNoCa => CVerifyOptionalNoCa
    case VerifyRequired => CVerifyRequire
  }

  /** The reverse reading of the verification levels. */
  function VerificationOf(c: CVerify): CertificateVerification
  {
    match c
    case CVerifyNone => VerifyNone
    case CVerifyOptional => VerifyOptional
    case CVerifyOptionalNoCa => VerifyOptionalNoCa
    case CVerifyRequire => VerifyRequired
  }

  /** The mapping of verification levels is one-to-one and onto. */
  lemma CVerifyForIsBijective()
    ensures forall v1, v2 :: CVerifyFor(v1) == CVerifyFor(v2) ==> v1 == v2
    ensures forall c :: CVerifyFor(VerificationOf(c)) == c
  {
    forall v1, v2 | CVerifyFor(v1) == CVerifyFor(v2) ensures v1 == v2 {
      assert VerificationOf(CVerifyFor(v1)) == v1;
    }
  }

  /** The state of an init run: the native record, the reported cipher names,
      and whether it has failed so far. */
  datatype InitRun = InitRun(native: NativeState, ciphers: seq<string>, outcome: Outcome<InitCause>)

  /** One native setter within init: skipped once the run has failed; when it
      throws the run fails with that call; otherwise its effect is recorded. */
  function Then(run: InitRun, call: NativeCall, env: Environment): (r: InitRun)
    ensures run.outcome.Fail? ==> r == run
    ensures r.ciphers == run.ciphers
    ensures r.native.options == run.native.options
    ensures r.native.sessionCacheSize == run.native.sessionCacheSize
    ensures r.native.sessionCacheTimeout == run.native.sessionCacheTimeout
    ensures run.outcome.Pass? ==> (r.outcome.Pass? <==> !env.nativeThrows(call))
  {
    if run.outcome.Fail? then run
    else if env.nativeThrows(call) then run.(outcome := Fail(NativeCallFailed(call)))
    else run.(native := Perform(run.native, call))
  }

  /** The native record after the option rules and the session parameters. */
  function Prepared(before: NativeState, config: HostConfig, env: Environment): (r: NativeState)
    ensures r == before.(options := r.options, sessionCacheSize := r.sessionCacheSize,
                         sessionCacheTimeout := r.sessionCacheTimeout)
  {
    var n := ApplyOptionRules(before, OptionRules(config), env.supported);
    n.(sessionCacheSize := EffectiveSessionValue(config.sessionCacheSize, n.sessionCacheSize),
       sessionCacheTimeout := EffectiveSessionValue(config.sessionTimeout, n.sessionCacheTimeout))
  }

  /** The cipher step followed by the native cipher-suite setter. A string the
      parser rejects fails the run before anything reaches the native context. */
  function CipherStage(run: InitRun, s: string, env: Environment): (r: InitRun)
    ensures run.outcome.Fail? ==> r == run
    ensures r.native.options == run.native.options
    ensures r.native.sessionCacheSize == run.native.sessionCacheSize
    ensures r.native.sessionCacheTimeout == run.native.sessionCacheTimeout
    ensures r.native == run.native.(cipherSuite := r.native.cipherSuite)
    ensures r.outcome.Pass? ==> run.outcome.Pass? && r.native.cipherSuite.Some?
  {
    if run.outcome.Fail? then run
    else match CipherStep(s, env)
      case Failure(cause) => run.(outcome := Fail(cause))
      case Success(step) => Then(run.(ciphers := step.0), SetCipherSuite(step.1), env)
  }

  function KeyMaterialOf(certificate: CertificateConfig): KeyMaterial
  {
    KeyMaterial(certificate.certificateFile, certificate.keyFile, certificate.keyPassword)
  }

  function CaLocations(config: HostConfig): Locations
  {
    Locations(config.caCertificateFile, config.caCertificatePath)
  }

  function RevocationLocations(config: HostConfig): Locations
  {
    Locations(config.revocationFile, config.revocationPath)
  }

  function VerifySettingOf(config: HostConfig): VerifySetting
  {
    VerifySetting(CVerifyFor(config.verification), config.verificationDepth)
  }

  /** The key material, CA, revocation and verification setters, in order.
      They touch nothing but those four settings, and the run passes them all
      exactly when it arrives intact and none of them throws. */
  function ConfigureStage(run: InitRun, config: HostConfig, certificate: CertificateConfig, env: Environment): (r: InitRun)
    ensures run.outcome.Fail? ==> r == run
    ensures r.ciphers == run.ciphers
    ensures r.native == run.native.(keyMaterial := r.native.keyMaterial, caCertificate := r.native.caCertificate,
                                    revocation := r.native.revocation, verify := r.native.verify)
    ensures r.outcome.Pass? <==>
      && run.outcome.Pass?
      && !env.nativeThrows(SetCertificate(KeyMaterialOf(certificate)))
      && !env.nativeThrows(SetCaCertificate(CaLocations(config)))
      && !env.nativeThrows(SetCaRevocation(RevocationLocations(config)))
      && !env.nativeThrows(SetVerify(VerifySettingOf(config)))
    ensures r.outcome.Pass? ==>
      && r.native.keyMaterial == Some(KeyMaterialOf(certificate))
      && r.native.caCertificate == Some(CaLocations(config))
      && r.native.revocation == Some(RevocationLocations(config))
      && r.native.verify == Some(VerifySettingOf(config))
  {
    var r1 := Then(run, SetCertificate(KeyMaterialOf(certificate)), env);
    var r2 := Then(r1, SetCaCertificate(CaLocations(config)), env);
    var r3 := Then(r2, SetCaRevocation(RevocationLocations(config)), env);
    Then(r3, SetVerify(VerifySettingOf(config)), env)
  }

  /** The trust step: only when trust managers are given, choose the X509 one
      (failing when there is none) and register the callback around it. Only
      the callback of the native context can change. */
  function TrustStep(run: InitRun, tms: Option<seq<TrustManager>>, env: Environment): (r: InitRun)
    ensures run.outcome.Fail? || tms.None? ==> r == run
    ensures r.ciphers == run.ciphers
    ensures r.native == run.native.(verifier := r.native.verifier)
    ensures run.outcome.Pass? && tms.Some? ==>
      (ChosenTrustManager(tms.value).Failure? ==> r.outcome == Fail(MissingTrustManager) && r.native == run.native)
    ensures run.outcome.Pass? && tms.Some? && r.outcome.Pass? ==>
      ChosenTrustManager(tms.value).Success?
      && r.native.verifier == Some(CertVerifier(ChosenTrustManager(tms.value).value))
  {
    if run.outcome.Fail? || tms.None? then run
    else match ChosenTrustManager(tms.value)
      case Failure(_) => run.(outcome := Fail(MissingTrustManager))
      case Success(m) => Then(run, SetCertVerifyCallback(CertVerifier(m)), env)
  }

  /** A first run of init, from the native record and cipher list it starts
      with: options and session parameters, ciphers, the four settings, the
      trust callback, and the NPN protocols, stopping at the first failure. */
  function InitSpec(before: NativeState, ciphers: seq<string>, config: HostConfig, certificate: CertificateConfig,
                    enabledProtocol: Option<string>, tms: Option<seq<TrustManager>>, env: Environment): (r: InitRun)
    // The options and session parameters are settled before anything can
    // fail and nothing later touches them.
    ensures r.native.options == Prepared(before, config, env).options
    ensures r.native.sessionCacheSize == Prepared(before, config, env).sessionCacheSize
    ensures r.native.sessionCacheTimeout == Prepared(before, config, env).sessionCacheTimeout
    // Without trust managers no callback is registered, whatever else happens.
    ensures tms.None? ==> r.native.verifier == before.verifier
    // A successful run ends with the NPN protocols registered.
    ensures r.outcome.Pass? ==> r.native.npnProtos == Some(env.npnProtocols(enabledProtocol))
  {
    var r1 := CipherStage(InitRun(Prepared(before, config, env), ciphers, Pass), config.ciphers, env);
    var r2 := ConfigureStage(r1, config, certificate, env);
    var r3 := TrustStep(r2, tms, env);
    Then(r3, SetNpnProtos(env.npnProtocols(enabledProtocol)), env)
  }

  /** The cause of a failed init, wrapped in the runtime exception init throws. */
  function Wrap(outcome: Outcome<InitCause>): (r: Outcome<InitFailure>)
    ensures r.Pass? <==> outcome.Pass?
    ensures r.Fail? ==> r.error.cause == outcome.error
  {
    match outcome
    case Pass => Pass
    case Fail(cause) => Fail(InitRuntimeException(cause))
  }

  // ---------------------------------------------------------------------------
  // Properties of init

  /** The four option rules after init: a supported option is set exactly when
      its configured flag is true; an unsupported one, and every other option,
      is as it was before init. */
  lemma InitOptionRules(before: NativeState, ciphers: seq<string>, config: HostConfig, certificate: CertificateConfig,
                        enabledProtocol: Option<string>, tms: Option<seq<TrustManager>>, env: Environment)
    ensures var options := InitSpec(before, ciphers, config, certificate, enabledProtocol, tms, env).native.options;
      && (AllowUnsafeLegacyRenegotiation in env.supported ==>
            (AllowUnsafeLegacyRenegotiation in options <==> config.insecureRenegotiation))
      && (CipherServerPreference in env.supported ==>
            (CipherServerPreference in options <==> config.honorCipherOrder))
      && (NoCompression in env.supported ==> (NoCompression in options <==> config.disableCompression))
      && (NoTicket in env.supported ==> (NoTicket in options <==> config.disableSessionTickets))
      && (forall o :: (o !in env.supported || o.OtherOption?) ==> (o in options <==> o in before.options))
  {
    var rules := OptionRules(config);
    assert DistinctOptions(rules);
    OptionRulesMeaning(before, rules, env.supported);
    assert rules[0].0 == AllowUnsafeLegacyRenegotiation && rules[1].0 == CipherServerPreference;
    assert rules[2].0 == NoCompression && rules[3].0 == NoTicket;
    forall o: SslOption | o.OtherOption?
      ensures !Governs(rules, o)
    {
    }
  }

  /** The session cache size and timeout after init: the configured value when
      it is positive, otherwise the value the native context had before. */
  lemma InitSessionRules(before: NativeState, ciphers: seq<string>, config: HostConfig, certificate: CertificateConfig,
                         enabledProtocol: Option<string>, tms: Option<seq<TrustManager>>, env: Environment)
    ensures var n := InitSpec(before, ciphers, config, certificate, enabledProtocol, tms, env).native;
      && n.sessionCacheSize == (if config.sessionCacheSize > 0 then config.sessionCacheSize else before.sessionCacheSize)
      && n.sessionCacheTimeout == (if config.sessionTimeout > 0 then config.sessionTimeout else before.sessionCacheTimeout)
  {
  }

  /** The notices of init: exactly one per unsupported option among the four,
      and nothing else. */
  lemma OptionNotices(config: HostConfig, supported: set<SslOption>)
    ensures var notices := RuleNotices(OptionRules(config), supported);
      && (forall x: Notice :: x in notices <==> x.OptionUnsupported? && !x.option.OtherOption? && x.option !in supported)
      && (forall i, j :: 0 <= i < j < |notices| ==> notices[i] != notices[j])
  {
    var rules := OptionRules(config);
    assert DistinctOptions(rules);
    RuleNoticesMeaning(rules, supported);
    forall o: SslOption ensures Governs(rules, o) <==> !o.OtherOption? {
      if !o.OtherOption? {
        match o
        case AllowUnsafeLegacyRenegotiation => assert rules[0].0 == o;
        case CipherServerPreference => assert rules[1].0 == o;
        case NoCompression => assert rules[2].0 == o;
        case NoTicket => assert rules[3].0 == o;
      }
    }
  }

  /** The cipher rule. A legacy string reports its comma-separated names and
      hands the converted string to the native context; any other string
      (including "ALL") reports the parser's expansion and is handed down
      unchanged, unless the parser fails, which fails init with the cipher list
      and the native cipher suite left as they were. */
  lemma InitCipherRule(before: NativeState, ciphers: seq<string>, config: HostConfig, certificate: CertificateConfig,
                       enabledProtocol: Option<string>, tms: Option<seq<TrustManager>>, env: Environment)
    ensures var run := InitSpec(before, ciphers, config, certificate, enabledProtocol, tms, env);
      var s := config.ciphers;
      && (IsLegacyCipherString(s) ==> run.ciphers == CipherNames(s))
      && (IsLegacyCipherString(s) && !env.nativeThrows(SetCipherSuite(env.toOpenSsl(s))) ==>
            run.native.cipherSuite == Some(env.toOpenSsl(s)))
      && (!IsLegacyCipherString(s) && env.parseExpression(s).Some? ==> run.ciphers == env.parseExpression(s).value)
      && (!IsLegacyCipherString(s) && env.parseExpression(s).Some? && !env.nativeThrows(SetCipherSuite(s)) ==>
            run.native.cipherSuite == Some(s))
      && (!IsLegacyCipherString(s) && env.parseExpression(s).None? ==>
            run.outcome == Fail(InvalidCipherExpression(s)) && run.ciphers == ciphers
            && run.native.cipherSuite == before.cipherSuite)
  {
    var s := config.ciphers;
    var r0 := InitRun(Prepared(before, config, env), ciphers, Pass);
    var r1 := CipherStage(r0, s, env);
    var r2 := ConfigureStage(r1, config, certificate, env);
    var r3 := TrustStep(r2, tms, env);
    assert r3.native.cipherSuite == r1.native.cipherSuite && r3.ciphers == r1.ciphers;
    if IsLegacyCipherString(s) {
      assert r1 == Then(r0.(ciphers := CipherNames(s)), SetCipherSuite(env.toOpenSsl(s)), env);
    } else if env.parseExpression(s).Some? {
      assert r1 == Then(r0.(ciphers := env.parseExpression(s).value), SetCipherSuite(s), env);
    } else {
      assert r1 == r0.(outcome := Fail(InvalidCipherExpression(s)));
    }
  }

  /** When every native setter returns normally, the cipher string is accepted
      and trust managers are either absent or include an X509 one, init
      succeeds and the native context holds the configured cipher suite, key
      material, CA and revocation locations, and the verification level and
      depth of the host. */
  lemma InitSucceeds(before: NativeState, ciphers: seq<string>, config: HostConfig, certificate: CertificateConfig,
                     enabledProtocol: Option<string>, tms: Option<seq<TrustManager>>, env: Environment)
    requires forall c :: !env.nativeThrows(c)
    requires IsLegacyCipherString(config.ciphers) || env.parseExpression(config.ciphers).Some?
    requires tms.Some? ==> exists i :: 0 <= i < |tms.value| && tms.value[i].X509TrustManager?
    ensures var run := InitSpec(before, ciphers, config, certificate, enabledProtocol, tms, env);
      && run.outcome == Pass
      && run.native.cipherSuite.Some?
      && run.native.keyMaterial == Some(KeyMaterial(certificate.certificateFile, certificate.keyFile, certificate.keyPassword))
      && run.native.caCertificate == Some(Locations(config.caCertificateFile, config.caCertificatePath))
      && run.native.revocation == Some(Locations(config.revocationFile, config.revocationPath))
      && run.native.verify == Some(VerifySetting(CVerifyFor(config.verification), config.verificationDepth))
  {
    var r1 := CipherStage(InitRun(Prepared(before, config, env), ciphers, Pass), config.ciphers, env);
    assert r1.outcome.Pass?;
    var r2 := ConfigureStage(r1, config, certificate, env);
    if tms.Some? {
      ChosenTrustManagerMeaning(tms.value);
    }
    var r3 := TrustStep(r2, tms, env);
    assert r3.outcome.Pass?;
  }

  /** Under the same conditions, init registers a certificate callback exactly
      when trust managers are given, built around the first X509 one, and sets
      the NPN protocols derived from the enabled protocol. */
  lemma InitRegistersCallback(before: NativeState, ciphers: seq<string>, config: HostConfig, certificate: CertificateConfig,
                              enabledProtocol: Option<string>, tms: Option<seq<TrustManager>>, env: Environment)
    requires forall c :: !env.nativeThrows(c)
    requires IsLegacyCipherString(config.ciphers) || env.parseExpression(config.ciphers).Some?
    requires tms.Some? ==> exists i :: 0 <= i < |tms.value| && tms.value[i].X509TrustManager?
    ensures var run := InitSpec(before, ciphers, config, certificate, enabledProtocol, tms, env);
      && (tms.Some? ==> run.native.verifier == Some(CertVerifier(ChosenTrustManager(tms.value).value))
                        && run.native.verifier.value.manager.X509TrustManager?)
      && run.native.npnProtos == Some(env.npnProtocols(enabledProtocol))
  {
    var r1 := CipherStage(InitRun(Prepared(before, config, env), ciphers, Pass), config.ciphers, env);
    assert r1.outcome.Pass?;
    var r2 := ConfigureStage(r1, config, certificate, env);
    if tms.Some? {
      ChosenTrustManagerMeaning(tms.value);
    }
    var r3 := TrustStep(r2, tms, env);
    assert r3.outcome.Pass?;
  }

  /** Trust managers without an X509 one make init fail, after the verification
      level is set and before any callback or NPN list is registered. */
  lemma InitFailsWithoutX509TrustManager(before: NativeState, ciphers: seq<string>, config: HostConfig,
                                         certificate: CertificateConfig, enabledProtocol: Option<string>,
                                         tms: seq<TrustManager>, env: Environment)
    requires forall c :: !env.nativeThrows(c)
    requires IsLegacyCipherString(config.ciphers) || env.parseExpression(config.ciphers).Some?
    requires forall i :: 0 <= i < |tms| ==> !tms[i].X509TrustManager?
    ensures var run := InitSpec(before, ciphers, config, certificate, enabledProtocol, Some(tms), env);
      && run.outcome == Fail(MissingTrustManager)
      && run.native.verify == Some(VerifySetting(CVerifyFor(config.verification), config.verificationDepth))
      && run.native.verifier == before.verifier
      && run.native.npnProtos == before.npnProtos
  {
    var r1 := CipherStage(InitRun(Prepared(before, config, env), ciphers, Pass), config.ciphers, env);
    assert r1.outcome.Pass?;
    var r2 := ConfigureStage(r1, config, certificate, env);
    assert r2.outcome.Pass? && r2.native.verifier == before.verifier && r2.native.npnProtos == before.npnProtos;
    ChosenTrustManagerMeaning(tms);
    assert ChosenTrustManager(tms).Failure?;
    var r3 := TrustStep(r2, Some(tms), env);
    assert r3.outcome == Fail(MissingTrustManager) && r3.native == r2.native;
  }

  // ---------------------------------------------------------------------------
  // Key specification

  datatype KeySpec = Pkcs8EncodedKeySpec(encoded: seq<bv8>)

  /** generateKeySpec: without a password (null or empty) the key bytes are
      wrapped as they are; otherwise the decryption, which is external, decides. */
  function GenerateKeySpec(password: Option<seq<char>>, key: seq<bv8>,
                           decrypt: (seq<char>, seq<bv8>) -> Result<KeySpec, string>): (r: Result<KeySpec, string>)
    ensures (password.None? || password.value == []) ==> r == Success(Pkcs8EncodedKeySpec(key))
    ensures password.Some? && password.value != [] ==> r == decrypt(password.value, key)
  {
    if password.None? || |password.value| == 0 then Success(Pkcs8EncodedKeySpec(key))
    else decrypt(password.value, key)
  }

  /** An engine as handed out by the context: native handle, protocol, client
      mode, and the shared session context. */
  datatype SslEngine = OpenSslEngine(ctx: int, protocol: string, clientMode: bool, session: Option<SessionContext>)

  // ---------------------------------------------------------------------------
  // The context object

  class OpenSslContext {
    const config: HostConfig
    const certificate: CertificateConfig
    /** The protocol mask the native context was made with. */
    const protocols: set<Protocol>
    /** The native handle: set once by the constructor, never cleared. */
    const ctx: int
    /** What has been configured on the native context behind ctx. */
    var native: NativeState
    var ciphers: seq<string>
    var enabledProtocol: Option<string>
    var sessionContext: Option<SessionContext>
    var initialized: bool
    var notices: seq<Notice>
    /** How many times the native context has been freed. */
    var freeCalls: nat

    /** The session context is published exactly when init has succeeded, and
        it refers to this context's handle. */
    ghost predicate Valid()
      reads this
    {
      && (initialized <==> sessionContext.Some?)
      && (sessionContext.Some? ==> sessionContext.value.ctx == ctx)
    }

    /** The tail of the Java constructor, once the native context is made. */
    constructor Made(config: HostConfig, certificate: CertificateConfig, protocols: set<Protocol>,
                     ctx: int, native: NativeState)
      ensures Valid()
      ensures this.config == config && this.certificate == certificate
      ensures this.protocols == protocols && this.ctx == ctx && this.native == native
      ensures ciphers == [] && enabledProtocol.None? && sessionContext.None? && !initialized
      ensures notices == [] && freeCalls == 0
    {
      this.config := config;
      this.certificate := certificate;
      this.protocols := protocols;
      this.ctx := ctx;
      this.native := native;
      ciphers := [];
      enabledProtocol := None;
      sessionContext := None;
      initialized := false;
      notices := [];
      freeCalls := 0;
    }

    /** The constructor: check the certificate file, resolve the protocol mask,
        make the native context; every failure is wrapped in one error. */
    static method Create(config: HostConfig, certificate: CertificateConfig,
                         make: set<Protocol> -> Option<(int, NativeState)>)
      returns (r: Result<OpenSslContext, ConstructionFailure>)
      ensures var spec := Construction(config, certificate, make);
        && (r.Success? <==> spec.Success?)
        && (r.Failure? ==> r.error == spec.error)
        && (r.Success? ==>
              && fresh(r.value) && r.value.Valid()
              && r.value.config == config && r.value.certificate == certificate
              && r.value.protocols == spec.value.0 && r.value.ctx == spec.value.1
              && r.value.native == spec.value.2
              && !r.value.initialized && r.value.ciphers == [] && r.value.enabledProtocol.None?
              && r.value.notices == [] && r.value.freeCalls == 0)
    {
      if certificate.certificateFile.None? {
        return Failure(FailedToInitialiseSslContext(CertificateRequired));
      }
      var mask := ResolveProtocols(config.protocols);
      if mask.Failure? {
        return Failure(FailedToInitialiseSslContext(InvalidProtocol(mask.error.token)));
      }
      var made := make(mask.value);
      if made.None? {
        return Failure(FailedToInitialiseSslContext(FailedToMakeSslContext));
      }
      var c := new OpenSslContext.Made(config, certificate, mask.value, made.value.0, made.value.1);
      return Success(c);
    }

    /** createSSLEngine: a server-side engine on this context's handle, always
        for "TLS" whatever protocol is enabled, sharing the session context,
        which exists exactly when init has succeeded. */
    function CreateSslEngine(): (e: SslEngine)
      reads this
      ensures e.ctx == ctx && e.protocol == DefaultProtocol && !e.clientMode
      ensures Valid() ==> (e.session.Some? <==> initialized)
      ensures Valid() && initialized ==> e.session == Some(OpenSslServerSessionContext(ctx))
    {
      OpenSslEngine(ctx, DefaultProtocol, false, sessionContext)
    }

    /** setEnabledProtocol: a null protocol stands for "TLS". */
    method SetEnabledProtocol(protocol: Option<string>)
      modifies this`enabledProtocol
      ensures enabledProtocol == Some(if protocol.None? then DefaultProtocol else protocol.value)
    {
      enabledProtocol := Some(if protocol.None? then DefaultProtocol else protocol.value);
    }

    /** finalize: free the native context unless the handle is zero. */
    method Finalize()
      modifies this`freeCalls
      ensures freeCalls == old(freeCalls) + (if ctx != 0 then 1 else 0)
    {
      if ctx != 0 {
        freeCalls := freeCalls + 1;
      }
    }

    // Native setters on this context's record.

    method SetSessionCacheSize(size: int) returns (previous: int)
      modifies this`native
      ensures previous == old(native.sessionCacheSize)
      ensures native == old(native).(sessionCacheSize := size)
    {
      previous := native.sessionCacheSize;
      native := native.(sessionCacheSize := size);
    }

    method SetSessionCacheTimeout(timeout: int) returns (previous: int)
      modifies this`native
      ensures previous == old(native.sessionCacheTimeout)
      ensures native == old(native).(sessionCacheTimeout := timeout)
    {
      previous := native.sessionCacheTimeout;
      native := native.(sessionCacheTimeout := timeout);
    }

    /** A native setter that may throw: ok is false when it did, and then
        nothing was recorded. */
    method CallNative(call: NativeCall, env: Environment) returns (ok: bool)
      modifies this`native
      ensures ok == !env.nativeThrows(call)
      ensures native == if ok then Perform(old(native), call) else old(native)
    {
      if env.nativeThrows(call) {
        return false;
      }
      native := Perform(native, call);
      return true;
    }

    /** One of the four option blocks of init: probe, then set or clear when
        supported, and write a notice when not. */
    method ProbeOption(option: SslOption, enabled: bool, env: Environment)
      modifies this`native, this`notices
      ensures native == ApplyOptionRule(old(native), option, enabled, env.supported)
      ensures notices == old(notices) + RuleNotice(option, env.supported)
    {
      var supported := option in env.supported;
      if supported {
        if enabled {
          native := native.(options := native.options + {option});
        } else {
          native := native.(options := native.options - {option});
        }
      }
      if !supported {
        notices := notices + [OptionUnsupported(option)];
      }
    }

    /** The session cache size: the configured one when positive; otherwise set
        the probe value to read the current one back, and put it back. */
    method ApplySessionCacheSize()
      modifies this`native
      ensures native == old(native).(sessionCacheSize :=
        EffectiveSessionValue(config.sessionCacheSize, old(native.sessionCacheSize)))
    {
      if config.sessionCacheSize > 0 {
        var _ := SetSessionCacheSize(config.sessionCacheSize);
      } else {
        var current := SetSessionCacheSize(ProbeSessionCacheSize);
        var _ := SetSessionCacheSize(current);
      }
    }

    /** The session timeout, by the same rule as the cache size. */
    method ApplySessionTimeout()
      modifies this`native
      ensures native == old(native).(sessionCacheTimeout :=
        EffectiveSessionValue(config.sessionTimeout, old(native.sessionCacheTimeout)))
    {
      if config.sessionTimeout > 0 {
        var _ := SetSessionCacheTimeout(config.sessionTimeout);
      } else {
        var current := SetSessionCacheTimeout(ProbeSessionTimeout);
        var _ := SetSessionCacheTimeout(current);
      }
    }

    /** The option blocks and session parameters of init. */
    method Prepare(env: Environment)
      modifies this`native, this`notices
      ensures native == Prepared(old(native), config, env)
      ensures notices == old(notices) + RuleNotices(OptionRules(config), env.supported)
    {
      ProbeOption(AllowUnsafeLegacyRenegotiation, config.insecureRenegotiation, env);
      ProbeOption(CipherServerPreference, config.honorCipherOrder, env);
      ProbeOption(NoCompression, config.disableCompression, env);
      ProbeOption(NoTicket, config.disableSessionTickets, env);
      RulesOfFour(old(native), config, env.supported);
      NoticesOfFour(config, env.supported);
      ApplySessionCacheSize();
      ApplySessionTimeout();
    }

    /** The cipher step of init. */
    method ApplyCiphers(env: Environment) returns (outcome: Outcome<InitCause>)
      modifies this`native, this`ciphers
      ensures var r := CipherStage(InitRun(old(native), old(ciphers), Pass), config.ciphers, env);
        native == r.native && ciphers == r.ciphers && outcome == r.outcome
    {
      var suite := config.ciphers;
      if IsLegacyCipherString(config.ciphers) {
        ciphers := LegacyCipherList(config.ciphers);
        suite := env.toOpenSsl(config.ciphers);
      } else {
        var parsed := env.parseExpression(config.ciphers);
        if parsed.None? {
          return Fail(InvalidCipherExpression(config.ciphers));
        }
        ciphers := parsed.value;
      }
      var ok := CallNative(SetCipherSuite(suite), env);
      outcome := if ok then Pass else Fail(NativeCallFailed(SetCipherSuite(suite)));
    }

    /** The key material, CA, revocation and verification setters of init. */
    method Configure(env: Environment) returns (outcome: Outcome<InitCause>)
      modifies this`native
      ensures var r := ConfigureStage(InitRun(old(native), ciphers, Pass), config, certificate, env);
        native == r.native && outcome == r.outcome
    {
      var calls := [SetCertificate(KeyMaterialOf(certificate)), SetCaCertificate(CaLocations(config)),
                    SetCaRevocation(RevocationLocations(config)), SetVerify(VerifySettingOf(config))];
      var ok := CallNative(calls[0], env);
      if !ok {
        return Fail(NativeCallFailed(calls[0]));
      }
      ok := CallNative(calls[1], env);
      if !ok {
        return Fail(NativeCallFailed(calls[1]));
      }
      ok := CallNative(calls[2], env);
      if !ok {
        return Fail(NativeCallFailed(calls[2]));
      }
      ok := CallNative(calls[3], env);
      if !ok {
        return Fail(NativeCallFailed(calls[3]));
      }
      return Pass;
    }

    /** The trust step of init. */
    method RegisterTrust(tms: Option<seq<TrustManager>>, env: Environment) returns (outcome: Outcome<InitCause>)
      modifies this`native
      ensures var r := TrustStep(InitRun(old(native), ciphers, Pass), tms, env);
        native == r.native && outcome == r.outcome
    {
      if tms.None? {
        return Pass;
      }
      var manager := ChooseTrustManager(tms.value);
      if manager.Failure? {
        return Fail(MissingTrustManager);
      }
      var call := SetCertVerifyCallback(CertVerifier(manager.value));
      var ok := CallNative(call, env);
      outcome := if ok then Pass else Fail(NativeCallFailed(call));
    }

    /** init: runs at most once. A call after a successful one only writes a
        notice. Otherwise it configures the native context step by step as
        InitSpec describes; on success it publishes the session context and
        only then marks the context initialized; on failure it reports the
        wrapped cause and stays uninitialized. The key managers are not used. */
    method Init(kms: seq<KeyManager>, tms: Option<seq<TrustManager>>, env: Environment)
      returns (r: Outcome<InitFailure>)
      requires Valid()
      modifies this
      ensures Valid()
      ensures enabledProtocol == old(enabledProtocol) && freeCalls == old(freeCalls)
      ensures old(initialized) ==>
        && r == Pass && initialized
        && native == old(native) && ciphers == old(ciphers) && sessionContext == old(sessionContext)
        && notices == old(notices) + [InitCalledMultipleTimes]
      ensures !old(initialized) ==>
        var run := InitSpec(old(native), old(ciphers), config, certificate, old(enabledProtocol), tms, env);
        && r == Wrap(run.outcome)
        && native == run.native && ciphers == run.ciphers
        && notices == old(notices) + RuleNotices(OptionRules(config), env.supported)
        && initialized == run.outcome.Pass?
        && sessionContext == (if run.outcome.Pass? then Some(OpenSslServerSessionContext(ctx)) else old(sessionContext))
    {
      if initialized {
        notices := notices + [InitCalledMultipleTimes];
        return Pass;
      }
      ghost var spec := InitSpec(native, ciphers, config, certificate, enabledProtocol, tms, env);
      Prepare(env);
      ghost var r0 := InitRun(native, ciphers, Pass);
      var outcome := ApplyCiphers(env);
      ghost var r1 := CipherStage(r0, config.ciphers, env);
      if outcome.Fail? {
        assert spec == r1;
        return Fail(InitRuntimeException(outcome.error));
      }
      outcome := Configure(env);
      ghost var r2 := ConfigureStage(r1, config, certificate, env);
      if outcome.Fail? {
        assert spec == r2;
        return Fail(InitRuntimeException(outcome.error));
      }
      outcome := RegisterTrust(tms, env);
      ghost var r3 := TrustStep(r2, tms, env);
      if outcome.Fail? {
        assert spec == r3;
        return Fail(InitRuntimeException(outcome.error));
      }
      var call := SetNpnProtos(env.npnProtocols(enabledProtocol));
      var ok := CallNative(call, env);
      if !ok {
        return Fail(InitRuntimeException(NativeCallFailed(call)));
      }
      sessionContext := Some(OpenSslServerSessionContext(ctx));
      initialized := true;
      return Pass;
    }
  }

  lemma RulesOfFour(n: NativeState, config: HostConfig, supported: set<SslOption>)
    ensures ApplyOptionRules(n, OptionRules(config), supported) ==
      ApplyOptionRule(ApplyOptionRule(ApplyOptionRule(ApplyOptionRule(n,
        AllowUnsafeLegacyRenegotiation, config.insecureRenegotiation, supported),
        CipherServerPreference, config.honorCipherOrder, supported),
        NoCompression, config.disableCompression, supported),
        NoTicket, config.disableSessionTickets, supported)
  {
    var rules := OptionRules(config);
    var n1 := ApplyOptionRule(n, rules[0].0, rules[0].1, supported);
    var n2 := ApplyOptionRule(n1, rules[1].0, rules[1].1, supported);
    var n3 := ApplyOptionRule(n2, rules[2].0, rules[2].1, supported);
    var n4 := ApplyOptionRule(n3, rules[3].0, rules[3].1, supported);
    assert rules[1..][0] == rules[1] && rules[1..][1..] == rules[2..];
    assert rules[2..][0] == rules[2] && rules[2..][1..] == rules[3..];
    assert rules[3..][0] == rules[3] && rules[3..][1..] == [];
    assert ApplyOptionRules(n3, rules[3..], supported) == n4;
    assert ApplyOptionRules(n2, rules[2..], supported) == n4;
    assert ApplyOptionRules(n1, rules[1..], supported) == n4;
  }

  lemma NoticesOfFour(config: HostConfig, supported: set<SslOption>)
    ensures RuleNotices(OptionRules(config), supported) ==
      RuleNotice(AllowUnsafeLegacyRenegotiation, supported) + RuleNotice(CipherServerPreference, supported)
      + RuleNotice(NoCompression, supported) + RuleNotice(NoTicket, supported)
  {
    var rules := OptionRules(config);
    assert rules[1..][0] == rules[1] && rules[1..][1..] == rules[2..];
    assert rules[2..][0] == rules[2] && rules[2..][1..] == rules[3..];
    assert rules[3..][0] == rules[3] && rules[3..][1..] == [];
    assert RuleNotices(rules[3..], supported) == RuleNotice(NoTicket, supported);
    assert RuleNotices(rules[2..], supported) == RuleNotice(NoCompression, supported) + RuleNotice(NoTicket, supported);
  }
}
