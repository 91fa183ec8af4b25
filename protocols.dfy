/** Resolution of the configured protocol names into the protocol mask handed to
    the native context when it is made. The mask is a set of protocol versions:
    the empty set is the native NONE mask and AllProtocols the native ALL mask. */
module Protocols {
  import opened Wrappers

  datatype Protocol = SSLv2 | SSLv3 | TLSv1 | TLSv1_1 | TLSv1_2

  const NoProtocols: set<Protocol> := {}
  const AllProtocols: set<Protocol> := {SSLv2, SSLv3, TLSv1, TLSv1_1, TLSv1_2}

  // The protocol names the configuration may list (compared ignoring case).
  const SSLv2HelloName: string := "SSLv2Hello"
  const SSLv2Name: string := "SSLv2"
  const SSLv3Name: string := "SSLv3"
  const TLSv1Name: string := "TLSv1"
  const TLSv1_1Name: string := "TLSv1.1"
  const TLSv1_2Name: string := "TLSv1.2"
  const AllName: string := "all"

  /** The error raised for a name that is none of the above. */
  datatype ProtocolError = InvalidSslProtocol(token: string)

  /** Java compares two characters ignoring case when lower(upper(c)) agrees.
      ASCII letters fold to lower case; the only other characters whose fold is
      an ASCII letter are the long s, the dotless i, the dotted capital I and
      the Kelvin sign. Every other character is kept as it is, which is exact
      for comparisons with the ASCII protocol names. */
  function FoldChar(c: char): char
  {
    if 'A' <= c <= 'Z' then (c as int - 'A' as int + 'a' as int) as char
    else if c == '\U{017F}' then 's'
    else if c == '\U{0131}' || c == '\U{0130}' then 'i'
    else if c == '\U{212A}' then 'k'
    else c
  }

  function Fold(s: string): (r: string)
    ensures |r| == |s|
    ensures forall i :: 0 <= i < |s| ==> r[i] == FoldChar(s[i])
  {
    seq(|s|, i requires 0 <= i < |s| => FoldChar(s[i]))
  }

  /** String.equalsIgnoreCase: equal lengths, and characters that agree once folded. */
  predicate EqualsIgnoreCase(a: string, b: string)
  {
    Fold(a) == Fold(b)
  }

  /** Two characters that are equal or are the upper- and lower-case forms of
      the same ASCII letter. */
  predicate SameLetterIgnoringAsciiCase(x: char, y: char)
  {
    x == y
    || ('A' <= x <= 'Z' && y as int == x as int + 32)
    || ('A' <= y <= 'Z' && x as int == y as int + 32)
  }

  predicate IsAscii(s: string)
  {
    forall i :: 0 <= i < |s| ==> s[i] < '\U{0080}'
  }

  /** Strings of the same length whose characters pairwise agree up to ASCII
      case are equal ignoring case. */
  lemma EqualsIgnoreCaseOfCaseVariants(a: string, b: string)
    requires |a| == |b|
    requires forall i :: 0 <= i < |a| ==> SameLetterIgnoringAsciiCase(a[i], b[i])
    ensures EqualsIgnoreCase(a, b)
  {
    forall i | 0 <= i < |a|
      ensures Fold(a)[i] == Fold(b)[i]
    {
      FoldCharOfCaseVariants(a[i], b[i]);
    }
  }

  /** On ASCII strings the converse holds too: equal ignoring case means the
      same length and characters that pairwise agree up to ASCII case. */
  lemma AsciiEqualsIgnoreCase(a: string, b: string)
    requires IsAscii(a) && IsAscii(b)
    ensures EqualsIgnoreCase(a, b) <==>
      |a| == |b| && forall i :: 0 <= i < |a| ==> SameLetterIgnoringAsciiCase(a[i], b[i])
  {
    if EqualsIgnoreCase(a, b) {
      forall i | 0 <= i < |a|
        ensures SameLetterIgnoringAsciiCase(a[i], b[i])
      {
        assert Fold(a)[i] == Fold(b)[i];
        FoldCharOnAscii(a[i], b[i]);
      }
    }
    if |a| == |b| && forall i :: 0 <= i < |a| ==> SameLetterIgnoringAsciiCase(a[i], b[i]) {
      EqualsIgnoreCaseOfCaseVariants(a, b);
    }
  }

  lemma FoldCharOfCaseVariants(x: char, y: char)
    requires SameLetterIgnoringAsciiCase(x, y)
    ensures FoldChar(x) == FoldChar(y)
  {
  }

  lemma FoldCharOnAscii(x: char, y: char)
    requires x < '\U{0080}' && y < '\U{0080}'
    requires FoldChar(x) == FoldChar(y)
    ensures SameLetterIgnoringAsciiCase(x, y)
  {
  }

  /** The bits one configured name contributes, tried in the order of the
      source's if-chain: SSLv2Hello contributes nothing, an unknown name is None. */
  function TokenBits(token: string): Option<set<Protocol>>
  {
    if EqualsIgnoreCase(SSLv2HelloName, token) then Some(NoProtocols)
    else if EqualsIgnoreCase(SSLv2Name, token) then Some({SSLv2})
    else if EqualsIgnoreCase(SSLv3Name, token) then Some({SSLv3})
    else if EqualsIgnoreCase(TLSv1Name, token) then Some({TLSv1})
    else if EqualsIgnoreCase(TLSv1_1Name, token) then Some({TLSv1_1})
    else if EqualsIgnoreCase(TLSv1_2Name, token) then Some({TLSv1_2})
    else if EqualsIgnoreCase(AllName, token) then Some(AllProtocols)
    else None
  }

  predicate Recognised(token: string)
  {
    TokenBits(token).Some?
  }

  /** The protocol names are distinct ignoring case, so the order of the
      if-chain does not matter: a name gives the bits of the protocol it
      spells, and a name that spells none of them is not recognised. */
  lemma TokenBitsByName(token: string)
    ensures TokenBits(token).None? <==>
      !EqualsIgnoreCase(SSLv2HelloName, token) && !EqualsIgnoreCase(SSLv2Name, token)
      && !EqualsIgnoreCase(SSLv3Name, token) && !EqualsIgnoreCase(TLSv1Name, token)
      && !EqualsIgnoreCase(TLSv1_1Name, token) && !EqualsIgnoreCase(TLSv1_2Name, token)
      && !EqualsIgnoreCase(AllName, token)
    ensures EqualsIgnoreCase(SSLv2HelloName, token) ==> TokenBits(token) == Some(NoProtocols)
    ensures EqualsIgnoreCase(SSLv2Name, token) ==> TokenBits(token) == Some({SSLv2})
    ensures EqualsIgnoreCase(SSLv3Name, token) ==> TokenBits(token) == Some({SSLv3})
    ensures EqualsIgnoreCase(TLSv1Name, token) ==> TokenBits(token) == Some({TLSv1})
    ensures EqualsIgnoreCase(TLSv1_1Name, token) ==> TokenBits(token) == Some({TLSv1_1})
    ensures EqualsIgnoreCase(TLSv1_2Name, token) ==> TokenBits(token) == Some({TLSv1_2})
    ensures EqualsIgnoreCase(AllName, token) ==> TokenBits(token) == Some(AllProtocols)
  {
    assert Fold(SSLv2HelloName) == "sslv2hello";
    assert Fold(SSLv2Name) == "sslv2";
    assert Fold(SSLv3Name) == "sslv3";
    assert Fold(TLSv1Name) == "tlsv1";
    assert Fold(TLSv1_1Name) == "tlsv1.1";
    assert Fold(TLSv1_2Name) == "tlsv1.2";
    assert Fold(AllName) == "all";
  }

  /** The mask accumulated from NONE over the names, left to right, stopping at
      the first name that is not recognised. */
  function MaskFrom(tokens: seq<string>): Result<set<Protocol>, ProtocolError>
  {
    if tokens == [] then Success(NoProtocols)
    else
      var last := tokens[|tokens| - 1];
      match MaskFrom(tokens[..|tokens| - 1])
      case Failure(e) => Failure(e)
      case Success(mask) =>
        match TokenBits(last)
        case None => Failure(InvalidSslProtocol(last))
        case Some(bits) => Success(mask + bits)
  }

  /** The protocol mask of a configured protocol list: ALL when the list is empty. */
  function ProtocolMask(tokens: seq<string>): (r: Result<set<Protocol>, ProtocolError>)
    ensures r.Failure? ==> r.error.token in tokens && !Recognised(r.error.token)
    ensures r.Success? ==> forall i :: 0 <= i < |tokens| ==>
      Recognised(tokens[i]) && TokenBits(tokens[i]).value <= r.value
  {
    if |tokens| == 0 then Success(AllProtocols)
    else
      MaskFromMeaning(tokens);
      MaskFrom(tokens)
  }

  /** The loop of the constructor: fold the names into the mask, failing on the
      first unrecognised one. */
  method ResolveProtocols(protocols: seq<string>) returns (r: Result<set<Protocol>, ProtocolError>)
    ensures r == ProtocolMask(protocols)
  {
    var value := NoProtocols;
    if |protocols| == 0 {
      value := AllProtocols;
      return Success(value);
    }
    var i := 0;
    while i < |protocols|
      invariant 0 <= i <= |protocols|
      invariant MaskFrom(protocols[..i]) == Success(value)
    {
      var protocol := protocols[i];
      assert protocols[..i + 1][..i] == protocols[..i];
      match TokenBits(protocol)
      case None =>
        assert MaskFrom(protocols[..i + 1]) == Failure(InvalidSslProtocol(protocol));
        MaskFromFailurePersists(protocols, i + 1);
        return Failure(InvalidSslProtocol(protocol));
      case Some(bits) =>
        value := value + bits;
      i := i + 1;
    }
    assert protocols[..i] == protocols;
    return Success(value);
  }

  /** Once the mask of a prefix has failed, the whole list fails with the same error. */
  lemma {:induction false} MaskFromFailurePersists(tokens: seq<string>, k: nat)
    requires k <= |tokens|
    requires MaskFrom(tokens[..k]).Failure?
    ensures MaskFrom(tokens) == MaskFrom(tokens[..k])
  {
    if k < |tokens| {
      var n := |tokens| - 1;
      assert tokens[..n][..k] == tokens[..k];
      MaskFromFailurePersists(tokens[..n], k);
    } else {
      assert tokens[..k] == tokens;
    }
  }

  /** The index of the first unrecognised name. */
  predicate FirstUnrecognised(tokens: seq<string>, k: int)
  {
    0 <= k < |tokens| && !Recognised(tokens[k])
    && forall j :: 0 <= j < k ==> Recognised(tokens[j])
  }

  /** MaskFrom against its reference meaning: it succeeds exactly when every
      name is recognised, the mask is then the union of the names' bits, and
      otherwise the error names the first unrecognised name. */
  lemma {:induction false} MaskFromMeaning(tokens: seq<string>)
    ensures MaskFrom(tokens).Success? <==> forall i :: 0 <= i < |tokens| ==> Recognised(tokens[i])
    ensures MaskFrom(tokens).Success? ==>
      forall p :: p in MaskFrom(tokens).value <==>
        exists i :: 0 <= i < |tokens| && Recognised(tokens[i]) && p in TokenBits(tokens[i]).value
    ensures MaskFrom(tokens).Failure? ==>
      exists k :: FirstUnrecognised(tokens, k) && MaskFrom(tokens).error == InvalidSslProtocol(tokens[k])
  {
    if tokens != [] {
      var n := |tokens| - 1;
      var init := tokens[..n];
      MaskFromMeaning(init);
      assert forall i :: 0 <= i < n ==> init[i] == tokens[i];
      match MaskFrom(init)
      case Failure(e) =>
        var k :| FirstUnrecognised(init, k) && e == InvalidSslProtocol(init[k]);
        assert FirstUnrecognised(tokens, k);
      case Success(mask) =>
        if Recognised(tokens[n]) {
          forall p
            ensures p in MaskFrom(tokens).value <==>
              exists i :: 0 <= i < |tokens| && Recognised(tokens[i]) && p in TokenBits(tokens[i]).value
          {
            if p in TokenBits(tokens[n]).value {
              assert Recognised(tokens[n]) && p in TokenBits(tokens[n]).value;
            }
          }
        } else {
          assert FirstUnrecognised(tokens, n);
        }
    }
  }

  /** The mask does not depend on the order (or the repetition) of the names:
      two lists holding the same names resolve alike. */
  lemma ProtocolMaskIgnoresOrder(a: seq<string>, b: seq<string>)
    requires forall t :: t in a <==> t in b
    ensures ProtocolMask(a).Success? <==> ProtocolMask(b).Success?
    ensures ProtocolMask(a).Success? ==> ProtocolMask(a).value == ProtocolMask(b).value
  {
    MaskFromMeaning(a);
    MaskFromMeaning(b);
    assert |a| == 0 <==> |b| == 0 by {
      if |a| > 0 { assert a[0] in b; }
      if |b| > 0 { assert b[0] in a; }
    }
    if MaskFrom(a).Success? {
      forall i | 0 <= i < |b|
        ensures Recognised(b[i])
      {
        assert b[i] in a;
        var j :| 0 <= j < |a| && a[j] == b[i];
      }
    }
    if MaskFrom(b).Success? {
      forall i | 0 <= i < |a|
        ensures Recognised(a[i])
      {
        assert a[i] in b;
        var j :| 0 <= j < |b| && b[j] == a[i];
      }
    }
    if |a| > 0 && MaskFrom(a).Success? {
      forall p
        ensures p in MaskFrom(a).value <==> p in MaskFrom(b).value
      {
        if p in MaskFrom(a).value {
          var i :| 0 <= i < |a| && Recognised(a[i]) && p in TokenBits(a[i]).value;
          assert a[i] in b;
          var j :| 0 <= j < |b| && b[j] == a[i];
        }
        if p in MaskFrom(b).value {
          var i :| 0 <= i < |b| && Recognised(b[i]) && p in TokenBits(b[i]).value;
          assert b[i] in a;
          var j :| 0 <= j < |a| && a[j] == b[i];
        }
      }
    }
  }

  /** Permuting the configured names never changes the outcome's kind nor the mask. */
  lemma ProtocolMaskPermutation(a: seq<string>, b: seq<string>)
    requires multiset(a) == multiset(b)
    ensures ProtocolMask(a).Success? <==> ProtocolMask(b).Success?
    ensures ProtocolMask(a).Success? ==> ProtocolMask(a).value == ProtocolMask(b).value
  {
    forall t
      ensures t in a <==> t in b
    {
      assert t in a <==> t in multiset(a);
      assert t in b <==> t in multiset(b);
    }
    ProtocolMaskIgnoresOrder(a, b);
  }

  /** Matching ignores case: lists whose names agree ignoring case resolve alike. */
  lemma ProtocolMaskIgnoresCase(a: seq<string>, b: seq<string>)
    requires |a| == |b|
    requires forall i :: 0 <= i < |a| ==> EqualsIgnoreCase(a[i], b[i])
    ensures ProtocolMask(a).Success? <==> ProtocolMask(b).Success?
    ensures ProtocolMask(a).Success? ==> ProtocolMask(a).value == ProtocolMask(b).value
  {
    MaskFromMeaning(a);
    MaskFromMeaning(b);
    assert forall i :: 0 <= i < |a| ==> TokenBits(a[i]) == TokenBits(b[i]);
    if |a| > 0 && MaskFrom(a).Success? {
      forall p
        ensures p in MaskFrom(a).value <==> p in MaskFrom(b).value
      {
        if p in MaskFrom(a).value {
          var i :| 0 <= i < |a| && Recognised(a[i]) && p in TokenBits(a[i]).value;
          assert Recognised(b[i]) && p in TokenBits(b[i]).value;
        }
        if p in MaskFrom(b).value {
          var i :| 0 <= i < |b| && Recognised(b[i]) && p in TokenBits(b[i]).value;
          assert Recognised(a[i]) && p in TokenBits(a[i]).value;
        }
      }
    }
  }

  /** SSLv2Hello is accepted but enables nothing: a non-empty list of SSLv2Hello
      names (in any case) yields the NONE mask, not ALL. */
  lemma HelloOnlyIsNone(tokens: seq<string>)
    requires |tokens| > 0
    requires forall i :: 0 <= i < |tokens| ==> EqualsIgnoreCase(SSLv2HelloName, tokens[i])
    ensures ProtocolMask(tokens) == Success(NoProtocols)
  {
    MaskFromMeaning(tokens);
    assert forall i :: 0 <= i < |tokens| ==> TokenBits(tokens[i]) == Some(NoProtocols);
    forall p
      ensures p !in MaskFrom(tokens).value
    {
    }
    assert MaskFrom(tokens).value == NoProtocols;
  }

  /** An unrecognised name anywhere makes the resolution fail. */
  lemma UnknownNameFails(tokens: seq<string>, k: nat)
    requires k < |tokens| && !Recognised(tokens[k])
    ensures ProtocolMask(tokens).Failure?
    ensures !Recognised(ProtocolMask(tokens).error.token)
  {
    MaskFromMeaning(tokens);
  }

  /** Single names: exact spelling, other cases, SSLv2Hello and an unknown name. */
  lemma TokenBitsExamples()
    ensures TokenBits("TLSv1.2") == Some({TLSv1_2})
    ensures TokenBits("tlsv1.1") == Some({TLSv1_1})
    ensures TokenBits("SSLV2HELLO") == Some(NoProtocols)
    ensures TokenBits("BOGUS") == None
  {
    assert Fold("TLSv1.2") == "tlsv1.2";
    assert Fold("tlsv1.1") == "tlsv1.1";
    assert Fold("TLSv1.1") == "tlsv1.1";
    assert Fold("SSLV2HELLO") == "sslv2hello";
    assert Fold("SSLv2Hello") == "sslv2hello";
    assert Fold("SSLv2") == "sslv2";
    assert Fold("SSLv3") == "sslv3";
    assert Fold("TLSv1") == "tlsv1";
    assert Fold("all") == "all";
    assert Fold("BOGUS") == "bogus";
  }

  /** Concrete cases: one version, a mixed-case list with SSLv2Hello, an unknown name. */
  lemma ProtocolMaskExamples()
    ensures ProtocolMask(["TLSv1.2"]) == Success({TLSv1_2})
    ensures ProtocolMask(["tlsv1.1", "SSLV2HELLO", "TLSv1.2"]) == Success({TLSv1_1, TLSv1_2})
    ensures ProtocolMask(["BOGUS"]) == Failure(InvalidSslProtocol("BOGUS"))
    ensures ProtocolMask([]) == Success(AllProtocols)
  {
    TokenBitsExamples();
    assert ["TLSv1.2"][..0] == [];
    assert MaskFrom(["TLSv1.2"]) == Success(NoProtocols + {TLSv1_2});
    assert NoProtocols + {TLSv1_2} == {TLSv1_2};
    assert ["BOGUS"][..0] == [];
    var l := ["tlsv1.1", "SSLV2HELLO", "TLSv1.2"];
    assert l[..2][..1] == ["tlsv1.1"];
    assert l[..2] == ["tlsv1.1", "SSLV2HELLO"];
    assert ["tlsv1.1"][..0] == [];
    assert MaskFrom(["tlsv1.1"]) == Success(NoProtocols + {TLSv1_1});
    assert NoProtocols + {TLSv1_1} == {TLSv1_1};
    assert MaskFrom(l[..2]) == Success({TLSv1_1} + NoProtocols);
    assert {TLSv1_1} + NoProtocols == {TLSv1_1};
    assert l[|l| - 1] == "TLSv1.2";
    assert l[..|l| - 1] == l[..2];
    assert MaskFrom(l) == Success({TLSv1_1} + {TLSv1_2});
    assert {TLSv1_1} + {TLSv1_2} == {TLSv1_1, TLSv1_2};
  }
}
