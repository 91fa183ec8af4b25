/** The native SSL context, seen only as the record of what has been configured
    on it. Nothing here has a cryptographic meaning: a setter records its
    argument, and the option set is a set of option names. */
module Native {
  import opened Wrappers
  import opened Managers

  /** The native option bits init touches, and any other bit the context may hold. */
  datatype SslOption =
    | AllowUnsafeLegacyRenegotiation
    | CipherServerPreference
    | NoCompression
    | NoTicket
    | OtherOption(bit: nat)

  /** The native client-certificate verification levels. */
  datatype CVerify = CVerifyNone | CVerifyOptional | CVerifyOptionalNoCa | CVerifyRequire

  /** Server certificate, key file and key password, loaded into the RSA slot. */
  datatype KeyMaterial = KeyMaterial(certificateFile: Option<string>, keyFile: Option<string>, password: Option<string>)

  /** A file and a directory, either of which may be absent. */
  datatype Locations = Locations(file: Option<string>, path: Option<string>)

  datatype VerifySetting = VerifySetting(mode: CVerify, depth: int)

  /** What has been configured on the native context. None means the setter has
      not been called on this context. */
  datatype NativeState = NativeState(
    options: set<SslOption>,
    sessionCacheSize: int,
    sessionCacheTimeout: int,
    cipherSuite: Option<string>,
    keyMaterial: Option<KeyMaterial>,
    caCertificate: Option<Locations>,
    revocation: Option<Locations>,
    verify: Option<VerifySetting>,
    verifier: Option<CertVerifier>,
    npnProtos: Option<seq<string>>)

  /** The native setters of init that may throw; NPN protocols are registered
      with the choose-my-last-protocol failure behaviour. */
  datatype NativeCall =
    | SetCipherSuite(suite: string)
    | SetCertificate(material: KeyMaterial)
    | SetCaCertificate(trusted: Locations)
    | SetCaRevocation(revoked: Locations)
    | SetVerify(setting: VerifySetting)
    | SetCertVerifyCallback(callback: CertVerifier)
    | SetNpnProtos(protocols: seq<string>)

  /** The effect of a native setter that returned normally: it records its own
      argument and leaves the options and the session parameters alone. */
  function Perform(n: NativeState, call: NativeCall): (r: NativeState)
    ensures r.options == n.options
    ensures r.sessionCacheSize == n.sessionCacheSize && r.sessionCacheTimeout == n.sessionCacheTimeout
    ensures call.SetVerify? ==> r.verify == Some(call.setting) && r.verifier == n.verifier
    ensures call.SetCertVerifyCallback? ==> r.verifier == Some(call.callback) && r.verify == n.verify
    // Each setter touches its own slot and no other.
    ensures call.SetCipherSuite? ==> r == n.(cipherSuite := Some(call.suite))
    ensures call.SetCertificate? ==> r == n.(keyMaterial := Some(call.material))
    ensures call.SetCaCertificate? ==> r == n.(caCertificate := Some(call.trusted))
    ensures call.SetCaRevocation? ==> r == n.(revocation := Some(call.revoked))
    ensures call.SetVerify? ==> r == n.(verify := Some(call.setting))
    ensures call.SetCertVerifyCallback? ==> r == n.(verifier := Some(call.callback))
    ensures call.SetNpnProtos? ==> r == n.(npnProtos := Some(call.protocols))
  {
    match call
    case SetCipherSuite(suite) => n.(cipherSuite := Some(suite))
    case SetCertificate(material) => n.(keyMaterial := Some(material))
    case SetCaCertificate(trusted) => n.(caCertificate := Some(trusted))
    case SetCaRevocation(revoked) => n.(revocation := Some(revoked))
    case SetVerify(setting) => n.(verify := Some(setting))
    case SetCertVerifyCallback(callback) => n.(verifier := Some(callback))
    case SetNpnProtos(protocols) => n.(npnProtos := Some(protocols))
  }
}
