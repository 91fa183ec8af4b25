# OpenSSL server context of wildfly-openssl, modelled in Dafny

This project models `OpenSSLContext`, the server-side SSL context of
wildfly-openssl. The context is built from a host configuration and a
certificate configuration. Its constructor turns the configured protocol
names into a protocol mask and makes a native OpenSSL context for that mask.
Its run-once `init` configures the native context in this order:

- the four option flags (unsafe legacy renegotiation, server cipher order,
  compression, session tickets);
- the session cache size and timeout;
- the cipher list;
- the key material, CA certificates, revocation lists and verification level;
- the client-certificate callback, when trust managers are given;
- the NPN protocols.

After that it publishes the session context that every engine shares.

The native library is not modelled as code. It is a record, `Native.NativeState`,
of everything the context has told it. Each native setter is one
`Native.NativeCall` applied by `Native.Perform`. Anything the context only
consults is a parameter, `SslContext.Environment`: which options the library
supports, the cipher-name converter, the cipher-expression parser, the NPN
protocol list and which setters throw.

Modules:

- `Wrappers`: `Option`, `Result` and `Outcome`.
- `Protocols`: the protocol names, Java's `equalsIgnoreCase`, and the
  protocol mask the constructor computes.
- `Ciphers`: the legacy comma-separated cipher list. This covers
  `StringTokenizer` on `,` and `String.trim`.
- `Managers`: choosing the key and trust managers, wrapping the peer chain as
  certificates, and the verification callback.
- `Native`: the native context as a record, and its setters.
- `SslContext`: construction, the specification of `init` (`InitSpec`) and its
  properties, `generateKeySpec`, and the class `OpenSslContext`. The class has
  the source's mutable fields and methods.

The cipher string `"ALL"` goes to the cipher-expression parser
(`OpenSSLContext.java:256`), not to the comma-separated path.

## Model

| member | source | states |
|---|---|---|
| Protocols.EqualsIgnoreCaseOfCaseVariants | src/main/java/io/undertow/openssl/OpenSSLContext.java:109 | strings of equal length whose characters pairwise are equal or the upper- and lower-case forms of one ASCII letter are equal ignoring case |
| Protocols.AsciiEqualsIgnoreCase | src/main/java/io/undertow/openssl/OpenSSLContext.java:109 | on ASCII strings, equal ignoring case holds if and only if the lengths agree and each pair of characters agrees up to ASCII case |
| Protocols.TokenBitsByName | src/main/java/io/undertow/openssl/OpenSSLContext.java:109-128 | a name gives the bits of the protocol it spells ignoring case (SSLv2Hello none, "all" every version), whatever the order of the if-chain; a name spelling none of them is not recognised |
| Protocols.ProtocolMask | src/main/java/io/undertow/openssl/OpenSSLContext.java:104-130 | a failure names an unrecognised name of the list; a success means every name was recognised and the mask holds each name's bits |
| Protocols.ResolveProtocols | src/main/java/io/undertow/openssl/OpenSSLContext.java:104-130 | the constructor's loop computes exactly `ProtocolMask`: ALL for an empty list, otherwise NONE OR-ed with each name's bits, failing on the first unrecognised name |
| Protocols.MaskFromFailurePersists | src/main/java/io/undertow/openssl/OpenSSLContext.java:123-128 | once a prefix of the names has failed, the whole list fails with the same error (the throw ends the loop) |
| Protocols.MaskFromMeaning | src/main/java/io/undertow/openssl/OpenSSLContext.java:104-130 | the mask succeeds if and only if every name is recognised; it then holds exactly the protocols some name contributes; otherwise the error names the first unrecognised name |
| Protocols.ProtocolMaskIgnoresOrder | src/main/java/io/undertow/openssl/OpenSSLContext.java:108-129 | lists with the same names both succeed or both fail, and give the same mask, whatever the order and repetition |
| Protocols.ProtocolMaskPermutation | src/main/java/io/undertow/openssl/OpenSSLContext.java:108-129 | a permutation of the protocol list succeeds exactly when the list does, with the same mask |
| Protocols.ProtocolMaskIgnoresCase | src/main/java/io/undertow/openssl/OpenSSLContext.java:109-121 | names that are equal ignoring case, position by position, both succeed or both fail, with the same mask |
| Protocols.HelloOnlyIsNone | src/main/java/io/undertow/openssl/OpenSSLContext.java:109-110 | a non-empty list of SSLv2Hello names only gives the empty (NONE) mask, not ALL |
| Protocols.UnknownNameFails | src/main/java/io/undertow/openssl/OpenSSLContext.java:123-128 | any unrecognised name anywhere in the list fails the mask, and the error reports an unrecognised name |
| Protocols.TokenBitsExamples | src/main/java/io/undertow/openssl/OpenSSLContext.java:109-128 | concrete names: TLSv1.2 and lower-case tlsv1.1 give their bit, upper-case SSLV2HELLO gives nothing, an unknown name is not recognised |
| Protocols.ProtocolMaskExamples | src/main/java/io/undertow/openssl/OpenSSLContext.java:104-130 | concrete masks: TLSv1.2 alone; mixed-case TLSv1.1, SSLv2Hello and TLSv1.2; an unknown name; the empty list |
| Ciphers.TrimStart | src/main/java/io/undertow/openssl/OpenSSLContext.java:260 | leading trim: only characters at or below U+0020 are removed, and the result does not start with one |
| Ciphers.TrimStartIsSuffix | src/main/java/io/undertow/openssl/OpenSSLContext.java:260 | the leading trim is a suffix of its input |
| Ciphers.TrimEnd | src/main/java/io/undertow/openssl/OpenSSLContext.java:260 | trailing trim: the result is a prefix, only space characters are removed, and the result does not end with one |
| Ciphers.Trim | src/main/java/io/undertow/openssl/OpenSSLContext.java:260 | the trimmed token has no space at either end, has only characters of the input, and a trimmed input comes back unchanged |
| Ciphers.TrimIsInfix | src/main/java/io/undertow/openssl/OpenSSLContext.java:260 | the trimmed token is a contiguous part s[i..j] of the input, with only white space before i and from j on |
| Ciphers.Fields | src/main/java/io/undertow/openssl/OpenSSLContext.java:257 | splitting on commas always gives at least one field |
| Ciphers.JoinOfFields | src/main/java/io/undertow/openssl/OpenSSLContext.java:257 | joining the fields of any string with commas gives the string back: the split loses only the delimiters |
| Ciphers.ScanStep | src/main/java/io/undertow/openssl/OpenSSLContext.java:257-259 | reading one more character: a comma closes the current field and opens an empty one, any other character extends the current field |
| Ciphers.LegacyCipherList | src/main/java/io/undertow/openssl/OpenSSLContext.java:257-264 | the tokenizer loop computes exactly `CipherNames`: the comma-separated tokens, trimmed, with the blank ones dropped |
| Ciphers.FieldsHaveNoComma | src/main/java/io/undertow/openssl/OpenSSLContext.java:257 | no field contains the delimiter |
| Ciphers.CleanedAreNames | src/main/java/io/undertow/openssl/OpenSSLContext.java:260-263 | every kept token is non-empty, trimmed and free of commas |
| Ciphers.CipherNames | src/main/java/io/undertow/openssl/OpenSSLContext.java:257-264 | the names reported for a legacy string are at most as many as its fields, and each is non-empty, trimmed and free of commas |
| Ciphers.LegacyCipherStringExamples | src/main/java/io/undertow/openssl/OpenSSLContext.java:256 | only the exact, case-sensitive "ALL" and strings with a ':' take the expression path; "all" and a comma list are legacy |
| Ciphers.FieldsOfCommaFree | src/main/java/io/undertow/openssl/OpenSSLContext.java:257 | a string without a comma is a single field |
| Ciphers.FieldsAfterComma | src/main/java/io/undertow/openssl/OpenSSLContext.java:257 | appending a comma and a comma-free string adds exactly one field |
| Ciphers.FieldsOfJoin | src/main/java/io/undertow/openssl/OpenSSLContext.java:257 | splitting a comma-join of comma-free strings gives those strings back |
| Ciphers.CleanedSnoc | src/main/java/io/undertow/openssl/OpenSSLContext.java:260-263 | cleaning one more field appends its trimmed form unless that is blank |
| Ciphers.CleanedOfNames | src/main/java/io/undertow/openssl/OpenSSLContext.java:260-263 | trimming and dropping blanks leaves a list of well-formed names unchanged |
| Ciphers.CipherNamesOfJoin | src/main/java/io/undertow/openssl/OpenSSLContext.java:257-264 | round trip: joining well-formed names with commas and reading them back gives the same list |
| Ciphers.FieldsOfThree | src/main/java/io/undertow/openssl/OpenSSLContext.java:257 | three comma-free strings joined by commas split back into those three |
| Ciphers.CleanedDropsBlank | src/main/java/io/undertow/openssl/OpenSSLContext.java:260-263 | a blank token between two names is dropped and the others are trimmed |
| Ciphers.TrimExamples | src/main/java/io/undertow/openssl/OpenSSLContext.java:260 | concrete trims: a name is unchanged, a lone space becomes empty, a leading space is removed |
| Ciphers.CipherNamesExample | src/main/java/io/undertow/openssl/OpenSSLContext.java:257-264 | "AES128-SHA, , AES256-SHA" reports the two names without the blank one |
| Managers.FirstWhere | src/main/java/io/undertow/openssl/OpenSSLContext.java:330-334 | the index of the first element satisfying the test, or none exactly when no element does |
| Managers.ChosenKeyManager | src/main/java/io/undertow/openssl/OpenSSLContext.java:329-336 | a chosen key manager is an OpenSSL one; a failure is the key-manager-missing error |
| Managers.ChosenTrustManager | src/main/java/io/undertow/openssl/OpenSSLContext.java:338-345 | a chosen trust manager is an X509 one; a failure is the trust-manager-missing error |
| Managers.ChooseKeyManager | src/main/java/io/undertow/openssl/OpenSSLContext.java:329-336 | the loop returns exactly `ChosenKeyManager` |
| Managers.ChooseTrustManager | src/main/java/io/undertow/openssl/OpenSSLContext.java:338-345 | the loop returns exactly `ChosenTrustManager` |
| Managers.ChosenKeyManagerMeaning | src/main/java/io/undertow/openssl/OpenSSLContext.java:329-336 | failure (key manager missing) if and only if no manager is an OpenSSL one; otherwise the first OpenSSL one |
| Managers.ChosenTrustManagerMeaning | src/main/java/io/undertow/openssl/OpenSSLContext.java:338-345 | failure (trust manager missing) if and only if no manager is an X509 one; otherwise the first X509 one |
| Managers.PeerCertificates | src/main/java/io/undertow/openssl/OpenSSLContext.java:347-353 | one certificate per chain entry, in order, each wrapping that entry's bytes |
| Managers.Certificates | src/main/java/io/undertow/openssl/OpenSSLContext.java:347-353 | the loop fills a new array with exactly `PeerCertificates(chain)` |
| Managers.Verify | src/main/java/io/undertow/openssl/OpenSSLContext.java:305-317 | the callback accepts exactly when the chosen trust manager trusts the wrapped chain for the given auth type |
| Native.Perform | src/main/java/io/undertow/openssl/OpenSSLContext.java:269-320 | each native setter records its own argument in its own setting and changes nothing else |
| SslContext.ConstructionFailsBeforeMake | src/main/java/io/undertow/openssl/OpenSSLContext.java:96-145 | a missing certificate file or a bad protocol name fails construction whatever the native library would do; the certificate is checked first |
| SslContext.Construction | src/main/java/io/undertow/openssl/OpenSSLContext.java:96-145 | a missing certificate file fails first; then an unrecognised protocol name fails with that name; a success had a certificate file and a valid mask, and made the native context with that mask |
| SslContext.ApplyOptionRule | src/main/java/io/undertow/openssl/OpenSSLContext.java:161-176 | a supported option ends up set exactly when its flag is true; an unsupported one and every other option keep their state |
| SslContext.ApplyOptionRules | src/main/java/io/undertow/openssl/OpenSSLContext.java:161-232 | applying the option rules changes nothing but the option set |
| SslContext.Prepared | src/main/java/io/undertow/openssl/OpenSSLContext.java:161-252 | the option blocks and session parameters change only the options, the cache size and the timeout |
| SslContext.GovernsRest | src/main/java/io/undertow/openssl/OpenSSLContext.java:161-232 | how the option table after its first rule relates to the whole table |
| SslContext.OptionRulesMeaning | src/main/java/io/undertow/openssl/OpenSSLContext.java:161-232 | applying distinct option rules in order: each supported option follows its flag, everything else keeps its state, nothing but the options changes |
| SslContext.RuleNoticesMeaning | src/main/java/io/undertow/openssl/OpenSSLContext.java:173-232 | exactly the unsupported options of the table are reported, each once |
| SslContext.EffectiveSessionValue | src/main/java/io/undertow/openssl/OpenSSLContext.java:235-252 | a positive configured value wins; otherwise the native context keeps what it had |
| SslContext.CipherStep | src/main/java/io/undertow/openssl/OpenSSLContext.java:255-268 | the step fails exactly when the string is not legacy and the parser rejects it, with the invalid-expression error; a parsed string is handed down unchanged; a legacy string hands down its converted form and reports well-formed names |
| SslContext.CVerifyFor | src/main/java/io/undertow/openssl/OpenSSLContext.java:286-300 | the verification level maps to the native constant, and `VerificationOf` reads it back |
| SslContext.CVerifyForIsBijective | src/main/java/io/undertow/openssl/OpenSSLContext.java:286-300 | the mapping of verification levels to native constants is one-to-one and onto |
| SslContext.CipherStage | src/main/java/io/undertow/openssl/OpenSSLContext.java:254-269 | the cipher step touches only the cipher suite of the native context, and passes only when a suite was set |
| SslContext.ConfigureStage | src/main/java/io/undertow/openssl/OpenSSLContext.java:270-301 | the four setters touch only the key material, CA, revocation and verification settings; they pass exactly when none throws, and then hold the configured values |
| SslContext.TrustStep | src/main/java/io/undertow/openssl/OpenSSLContext.java:303-318 | without trust managers nothing happens; with them and no X509 one the run fails untouched; on success the callback wraps the chosen manager |
| SslContext.InitSpec | src/main/java/io/undertow/openssl/OpenSSLContext.java:160-323 | whether or not init succeeds, the options and session parameters are those set at its start, and without trust managers no callback is registered; a successful run has registered the NPN protocols |
| SslContext.Wrap | src/main/java/io/undertow/openssl/OpenSSLContext.java:324-326 | init fails exactly when a step failed, and the runtime exception carries that step's cause |
| SslContext.InitOptionRules | src/main/java/io/undertow/openssl/OpenSSLContext.java:161-232 | after init each supported option of the four is set exactly when its flag is true; unsupported and other options keep their state |
| SslContext.InitSessionRules | src/main/java/io/undertow/openssl/OpenSSLContext.java:234-252 | after init the session cache size and timeout are the configured values when positive, otherwise the native defaults (probe and put back) |
| SslContext.OptionNotices | src/main/java/io/undertow/openssl/OpenSSLContext.java:173-232 | init reports exactly the unsupported options among the four, each once |
| SslContext.InitCipherRule | src/main/java/io/undertow/openssl/OpenSSLContext.java:254-269 | a legacy string reports its names and hands down the converted string; any other string, "ALL" included, reports the parser's expansion and is handed down unchanged; a parser failure fails init with the list and suite unchanged |
| SslContext.InitSucceeds | src/main/java/io/undertow/openssl/OpenSSLContext.java:254-323 | with no throwing setter, an accepted cipher string and an X509 trust manager when any are given, init succeeds with the cipher suite, key material, CA and revocation locations and verification level in the native context |
| SslContext.InitRegistersCallback | src/main/java/io/undertow/openssl/OpenSSLContext.java:303-320 | under the same conditions, given trust managers the callback wraps the first X509 one, and the NPN protocols come from the enabled protocol |
| SslContext.InitFailsWithoutX509TrustManager | src/main/java/io/undertow/openssl/OpenSSLContext.java:303-304 | trust managers without an X509 one fail init after the verification level is set, before any callback or NPN list |
| SslContext.GenerateKeySpec | src/main/java/io/undertow/openssl/OpenSSLContext.java:392-409 | a null or empty password wraps the key bytes unencrypted; otherwise the decryption decides |
| SslContext.RulesOfFour | src/main/java/io/undertow/openssl/OpenSSLContext.java:161-232 | the four option blocks, one after the other, are the option table applied in order |
| SslContext.NoticesOfFour | src/main/java/io/undertow/openssl/OpenSSLContext.java:173-232 | the notices of the four blocks, one after the other, are those of the option table |
| SslContext.OpenSslContext.Made | src/main/java/io/undertow/openssl/OpenSSLContext.java:92-95 | a new context holds its configuration, mask, handle and native record; it is not initialized, has no session context and no ciphers |
| SslContext.OpenSslContext.Create | src/main/java/io/undertow/openssl/OpenSSLContext.java:92-145 | the constructor succeeds exactly when `Construction` does, with the same error otherwise; a new context is fresh, valid and not initialized |
| SslContext.OpenSslContext.CreateSslEngine | src/main/java/io/undertow/openssl/OpenSSLContext.java:359-361 | an engine is server-side, on this handle, for "TLS" whatever protocol is enabled, and shares the session context once init has succeeded |
| SslContext.OpenSslContext.SetEnabledProtocol | src/main/java/io/undertow/openssl/OpenSSLContext.java:71-73 | a null protocol becomes "TLS", any other is kept |
| SslContext.OpenSslContext.Finalize | src/main/java/io/undertow/openssl/OpenSSLContext.java:411-419 | the native context is freed once per call unless the handle is zero |
| SslContext.OpenSslContext.SetSessionCacheSize | src/main/java/io/undertow/openssl/OpenSSLContext.java:236-241 | the native setter returns the previous size and stores the new one |
| SslContext.OpenSslContext.SetSessionCacheTimeout | src/main/java/io/undertow/openssl/OpenSSLContext.java:246-251 | the native setter returns the previous timeout and stores the new one |
| SslContext.OpenSslContext.CallNative | src/main/java/io/undertow/openssl/OpenSSLContext.java:269-320 | a throwing setter changes nothing; any other records its call |
| SslContext.OpenSslContext.ProbeOption | src/main/java/io/undertow/openssl/OpenSSLContext.java:161-176 | one option block: `ApplyOptionRule` on the native record, plus a notice when the option is unsupported |
| SslContext.OpenSslContext.ApplySessionCacheSize | src/main/java/io/undertow/openssl/OpenSSLContext.java:234-242 | the cache size becomes the configured one when positive; otherwise the probe-and-restore leaves the previous size |
| SslContext.OpenSslContext.ApplySessionTimeout | src/main/java/io/undertow/openssl/OpenSSLContext.java:244-252 | the timeout becomes the configured one when positive; otherwise the probe-and-restore leaves the previous timeout |
| SslContext.OpenSslContext.Prepare | src/main/java/io/undertow/openssl/OpenSSLContext.java:161-252 | the option blocks and session parameters produce `Prepared` and the option notices |
| SslContext.OpenSslContext.ApplyCiphers | src/main/java/io/undertow/openssl/OpenSSLContext.java:254-269 | the cipher code of init performs `CipherStage` on the object's fields |
| SslContext.OpenSslContext.Configure | src/main/java/io/undertow/openssl/OpenSSLContext.java:270-301 | the four setters of init perform `ConfigureStage` on the native record |
| SslContext.OpenSslContext.RegisterTrust | src/main/java/io/undertow/openssl/OpenSSLContext.java:303-318 | the trust-manager code of init performs `TrustStep` on the native record |
| SslContext.OpenSslContext.Init | src/main/java/io/undertow/openssl/OpenSSLContext.java:155-327 | a second call after success only logs; otherwise the new state is `InitSpec`, failures come out wrapped, and the session context is published exactly on success, keeping `Valid` |

## Left out

- The native library (`SSLContext`, `SSL`) is a record of what the context
  has told it, not code. The C side of each call is not modelled. `SSL.java`
  is not part of this model, so its constants are taken by name. The ALL mask
  is taken to be the five protocol versions.
- `SSL.hasOp` and its `UnsatisfiedLinkError` are one input: the set of
  supported options. `setOptions`, `clearOptions` and the session-cache setters
  are taken never to throw. The other setters may throw, as the environment
  says.
- `CipherSuiteConverter.toOpenSsl`, `OpenSSLCipherConfigurationParser.parseExpression`
  and `OpenSSLProtocols` are parameters. Their code is not part of this model.
- `SSLHostConfig.adjustRelativePath` is applied before the model sees a path.
  The configuration holds the resolved path, or none where it gives null.
- A null cipher string, a null verification level and a null protocol list
  throw `NullPointerException` in the source. The model's configuration
  cannot hold them.
- `SslContext.GenerateKeySpec`: the password-based decryption (lines 400-408)
  is one external function. The model does not decode key bytes.
- Logging is reduced to a list of notices. The first option notice is a debug
  message in the source and the other three are warnings; the model does not
  tell them apart. The debug log of a failed certificate check is not modelled.
- `Managers.Verify`: `checkClientTrusted` is a parameter that passes or fails.
  The X.509 parsing behind `OpenSslX509Certificate` and the static
  `CertificateFactory` are not modelled.
- `synchronized` on `init` and `finalize`, the unused `aprPoolDestroyed`
  updater, and the garbage collector that calls `finalize` are not modelled.
  `SslContext.OpenSslContext.Finalize` counts the frees.
- `getServerSocketFactory` and `getSupportedSSLParameters` only throw
  `UnsupportedOperationException`. The plain getters (`getCiphers`,
  `getEnabledProtocol`, `getServerSessionContext`) are the class's fields.
- The key managers and the `SecureRandom` given to `init` are unused in the
  source, and `chooseKeyManager` is never called from `init`.
- `OpenSSLServerSessionContext` and `OpenSSLEngine` are values that hold the
  handle and the shared session context. Their behaviour is not modelled.
- `Protocols.Fold`: case folding covers ASCII and the four non-ASCII
  characters that fold onto ASCII letters. The other characters are kept as
  they are. This is exact for comparisons with the ASCII protocol names, but
  it is not Java's full case mapping.
