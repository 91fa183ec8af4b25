/** Selection of the key and trust managers handed to init, the conversion of a
    raw peer chain into certificates, and the verification callback built around
    the chosen trust manager. Managers and certificates are opaque: a manager is
    known by its kind and an identity, a certificate by its DER bytes. */
module Managers {
  import opened Wrappers

  datatype KeyManager = OpenSslKeyManager(id: nat) | OtherKeyManager(id: nat)

  datatype TrustManager = X509TrustManager(id: nat) | OtherTrustManager(id: nat)

  datatype ManagerError = KeyManagerMissing | TrustManagerMissing

  /** An OpenSslX509Certificate keeps the encoded bytes it was made from and
      parses them only on demand. */
  datatype X509Certificate = OpenSslX509Certificate(encoded: seq<bv8>)

  /** The callback registered with the native context: it checks a peer chain
      against one trust manager. */
  datatype CertVerifier = CertVerifier(manager: TrustManager)

  predicate IsOpenSslKeyManager(m: KeyManager)
  {
    m.OpenSslKeyManager?
  }

  predicate IsX509TrustManager(m: TrustManager)
  {
    m.X509TrustManager?
  }

  /** The index of the first element of s that satisfies p, if any. */
  function FirstWhere<T>(s: seq<T>, p: T -> bool): (r: Option<nat>)
    ensures r.None? <==> forall i :: 0 <= i < |s| ==> !p(s[i])
    ensures r.Some? ==> r.value < |s| && p(s[r.value])
    ensures r.Some? ==> forall j :: 0 <= j < r.value ==> !p(s[j])
  {
    if s == [] then None
    else if p(s[0]) then Some(0)
    else match FirstWhere(s[1..], p)
      case None => None
      case Some(k) => Some(k + 1)
  }

  /** What chooseKeyManager promises: the first OpenSSL key manager, or the
      key-manager-missing error. */
  function ChosenKeyManager(managers: seq<KeyManager>): (r: Result<KeyManager, ManagerError>)
    ensures r.Failure? ==> r.error == KeyManagerMissing
    ensures r.Success? ==> IsOpenSslKeyManager(r.value)
  {
    match FirstWhere(managers, IsOpenSslKeyManager)
    case None => Failure(KeyManagerMissing)
    case Some(i) => Success(managers[i])
  }

  /** What chooseTrustManager promises: the first X509 trust manager, or the
      trust-manager-missing error. */
  function ChosenTrustManager(managers: seq<TrustManager>): (r: Result<TrustManager, ManagerError>)
    ensures r.Failure? ==> r.error == TrustManagerMissing
    ensures r.Success? ==> IsX509TrustManager(r.value)
  {
    match FirstWhere(managers, IsX509TrustManager)
    case None => Failure(TrustManagerMissing)
    case Some(i) => Success(managers[i])
  }

  /** chooseKeyManager: an early-return scan for the first OpenSSL key manager. */
  method ChooseKeyManager(managers: seq<KeyManager>) returns (r: Result<KeyManager, ManagerError>)
    ensures r == ChosenKeyManager(managers)
  {
    var i := 0;
    while i < |managers|
      invariant 0 <= i <= |managers|
      invariant forall j :: 0 <= j < i ==> !IsOpenSslKeyManager(managers[j])
    {
      if managers[i].OpenSslKeyManager? {
        return Success(managers[i]);
      }
      i := i + 1;
    }
    return Failure(KeyManagerMissing);
  }

  /** chooseTrustManager: an early-return scan for the first X509 trust manager. */
  method ChooseTrustManager(managers: seq<TrustManager>) returns (r: Result<TrustManager, ManagerError>)
    ensures r == ChosenTrustManager(managers)
  {
    var i := 0;
    while i < |managers|
      invariant 0 <= i <= |managers|
      invariant forall j :: 0 <= j < i ==> !IsX509TrustManager(managers[j])
    {
      if managers[i].X509TrustManager? {
        return Success(managers[i]);
      }
      i := i + 1;
    }
    return Failure(TrustManagerMissing);
  }

  /** The chosen trust manager is the first X509 one in the array, and it is
      missing exactly when the array holds no X509 trust manager. */
  lemma ChosenTrustManagerMeaning(managers: seq<TrustManager>)
    ensures ChosenTrustManager(managers).Failure? <==>
      forall i :: 0 <= i < |managers| ==> !managers[i].X509TrustManager?
    ensures ChosenTrustManager(managers).Failure? ==>
      ChosenTrustManager(managers).error == TrustManagerMissing
    ensures ChosenTrustManager(managers).Success? ==>
      ChosenTrustManager(managers).value.X509TrustManager? && ChosenTrustManager(managers).value in managers
    ensures ChosenTrustManager(managers).Success? ==>
      exists i :: 0 <= i < |managers| && ChosenTrustManager(managers).value == managers[i] &&
        forall j :: 0 <= j < i ==> !managers[j].X509TrustManager?
  {
    var r := FirstWhere(managers, IsX509TrustManager);
    if r.None? {
      assert forall i :: 0 <= i < |managers| ==> !IsX509TrustManager(managers[i]);
    } else {
      assert forall j :: 0 <= j < r.value ==> !IsX509TrustManager(managers[j]);
    }
  }

  /** The chosen key manager is the first OpenSSL one in the array, and it is
      missing exactly when the array holds none. */
  lemma ChosenKeyManagerMeaning(managers: seq<KeyManager>)
    ensures ChosenKeyManager(managers).Failure? <==>
      forall i :: 0 <= i < |managers| ==> !managers[i].OpenSslKeyManager?
    ensures ChosenKeyManager(managers).Failure? ==>
      ChosenKeyManager(managers).error == KeyManagerMissing
    ensures ChosenKeyManager(managers).Success? ==>
      ChosenKeyManager(managers).value.OpenSslKeyManager? && ChosenKeyManager(managers).value in managers
    ensures ChosenKeyManager(managers).Success? ==>
      exists i :: 0 <= i < |managers| && ChosenKeyManager(managers).value == managers[i] &&
        forall j :: 0 <= j < i ==> !managers[j].OpenSslKeyManager?
  {
    var r := FirstWhere(managers, IsOpenSslKeyManager);
    if r.None? {
      assert forall i :: 0 <= i < |managers| ==> !IsOpenSslKeyManager(managers[i]);
    } else {
      assert forall j :: 0 <= j < r.value ==> !IsOpenSslKeyManager(managers[j]);
    }
  }

  /** The certificates of a raw chain: one per element, same length, same order. */
  function PeerCertificates(chain: seq<seq<bv8>>): (certs: seq<X509Certificate>)
    ensures |certs| == |chain|
    ensures forall i :: 0 <= i < |chain| ==> certs[i].encoded == chain[i]
  {
    seq(|chain|, i requires 0 <= i < |chain| => OpenSslX509Certificate(chain[i]))
  }

  /** certificates(chain): fill a fresh array, element by element. */
  method Certificates(chain: seq<seq<bv8>>) returns (peerCerts: array<X509Certificate>)
    ensures fresh(peerCerts)
    ensures peerCerts[..] == PeerCertificates(chain)
  {
    peerCerts := new X509Certificate[|chain|];
    var i := 0;
    while i < peerCerts.Length
      invariant 0 <= i <= peerCerts.Length == |chain|
      invariant forall j :: 0 <= j < i ==> peerCerts[j] == OpenSslX509Certificate(chain[j])
    {
      peerCerts[i] := OpenSslX509Certificate(chain[i]);
      i := i + 1;
    }
  }

  /** CertificateVerifier.verify: convert the chain, ask the trust manager, and
      accept exactly when checkClientTrusted returns without an exception. The
      trust manager's check is external and is a parameter; its Fail result is
      the exception it throws, which the callback swallows. */
  method Verify(verifier: CertVerifier,
                checkClientTrusted: (TrustManager, seq<X509Certificate>, string) -> Outcome<string>,
                chain: seq<seq<bv8>>, auth: string)
    returns (ok: bool)
    ensures ok <==> checkClientTrusted(verifier.manager, PeerCertificates(chain), auth).Pass?
  {
    var peerCerts := Certificates(chain);
    var outcome := checkClientTrusted(verifier.manager, peerCerts[..], auth);
    match outcome
    case Pass =>
      return true;
    case Fail(_) =>
      return false;
  }
}
