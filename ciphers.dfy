/** The legacy (comma-separated) cipher list: the names the context reports
    for a configured cipher string that is not an engine-native expression. */
module Ciphers {

  /** The string that always takes the expression path. */
  const AllCiphers: string := "ALL"

  /** A cipher string goes to the legacy tokenizer when it is not exactly "ALL"
      (a case-sensitive comparison) and holds no ':'. */
  predicate IsLegacyCipherString(s: string)
  {
    s != AllCiphers && ':' !in s
  }

  /** String.trim removes every leading and trailing character at or below U+0020. */
  predicate IsSpace(c: char)
  {
    c <= ' '
  }

  predicate IsTrimmed(s: string)
  {
    s == [] || (!IsSpace(s[0]) && !IsSpace(s[|s| - 1]))
  }

  function TrimStart(s: string): (r: string)
    ensures |r| <= |s|
    ensures forall c :: c in r ==> c in s
    ensures forall i :: 0 <= i < |s| - |r| ==> IsSpace(s[i])
    ensures r == [] || !IsSpace(r[0])
  {
    if s != [] && IsSpace(s[0]) then TrimStart(s[1..]) else s
  }

  /** What TrimStart leaves is a suffix of its input. */
  lemma {:induction false} TrimStartIsSuffix(s: string)
    ensures TrimStart(s) == s[|s| - |TrimStart(s)|..]
  {
    if s != [] && IsSpace(s[0]) {
      TrimStartIsSuffix(s[1..]);
      var r := TrimStart(s);
      assert s[1..][|s| - 1 - |r|..] == s[|s| - |r|..];
    }
  }

  function TrimEnd(s: string): (r: string)
    ensures |r| <= |s|
    ensures forall i :: 0 <= i < |r| ==> r[i] == s[i]
    ensures forall i :: |r| <= i < |s| ==> IsSpace(s[i])
    ensures r == [] || !IsSpace(r[|r| - 1])
  {
    if s != [] && IsSpace(s[|s| - 1]) then TrimEnd(s[..|s| - 1]) else s
  }

  /** String.trim: the result has no white space at either end, holds only
      characters of the input, and leaves an already trimmed string as it is. */
  function Trim(s: string): (r: string)
    ensures IsTrimmed(r)
    ensures forall c :: c in r ==> c in s
    ensures IsTrimmed(s) ==> r == s
  {
    var t := TrimStart(s);
    var r := TrimEnd(t);
    assert forall c :: c in r ==> c in t;
    r
  }

  /** Trim cuts off exactly a run of leading and a run of trailing white space:
      the result is the contiguous part s[i..j] of the input, and everything
      before i and from j on is white space. */
  lemma TrimIsInfix(s: string)
    ensures exists i, j ::
      && 0 <= i <= j <= |s| && Trim(s) == s[i..j]
      && (forall k :: 0 <= k < i ==> IsSpace(s[k]))
      && (forall k :: j <= k < |s| ==> IsSpace(s[k]))
  {
    var t := TrimStart(s);
    var r := TrimEnd(t);
    TrimStartIsSuffix(s);
    var i := |s| - |t|;
    var j := i + |r|;
    assert r == t[..|r|];
    assert r == s[i..j];
    assert forall k :: j <= k < |s| ==> s[k] == t[k - i];
  }

  /** The fields of s between commas, empty fields included: one more field
      than there are commas. */
  function Fields(s: string): (r: seq<string>)
    ensures |r| >= 1
  {
    if s == [] then [""]
    else
      var f := Fields(s[..|s| - 1]);
      if s[|s| - 1] == ',' then f + [""]
      else f[..|f| - 1] + [f[|f| - 1] + [s[|s| - 1]]]
  }

  /** Each field trimmed, the empty results dropped, the order kept. */
  function Cleaned(fields: seq<string>): (r: seq<string>)
    ensures |r| <= |fields|
  {
    if fields == [] then []
    else
      var t := Trim(fields[|fields| - 1]);
      Cleaned(fields[..|fields| - 1]) + (if t == "" then [] else [t])
  }

  /** The names the legacy path reports. A StringTokenizer on ',' yields the
      non-empty fields; trimming them and dropping the empty results gives the
      same list as trimming every field and dropping the empty ones. */
  function CipherNames(s: string): (r: seq<string>)
    ensures |r| <= |Fields(s)|
    ensures forall k :: 0 <= k < |r| ==> IsCipherName(r[k])
  {
    FieldsHaveNoComma(s);
    CleanedAreNames(Fields(s));
    Cleaned(Fields(s))
  }

  /** The tokenizer loop of init: scan the string, cut it at each comma, trim
      each piece and append it when it is not empty. */
  method LegacyCipherList(s: string) returns (names: seq<string>)
    ensures names == CipherNames(s)
  {
    names := [];
    var token := "";
    ghost var done: seq<string> := [];
    var i := 0;
    while i < |s|
      invariant 0 <= i <= |s|
      invariant Fields(s[..i]) == done + [token]
      invariant names == Cleaned(done)
    {
      ScanStep(s, i, done, token);
      if s[i] == ',' {
        var t := Trim(token);
        CleanedSnoc(done, token);
        if t != "" {
          names := names + [t];
        }
        done := done + [token];
        token := "";
      } else {
        token := token + [s[i]];
      }
      i := i + 1;
    }
    var t := Trim(token);
    CleanedSnoc(done, token);
    if t != "" {
      names := names + [t];
    }
    assert s[..i] == s;
  }

  /** Reading one more character: a comma closes the current field and opens
      an empty one, any other character extends the current field. */
  lemma ScanStep(s: string, i: nat, done: seq<string>, token: string)
    requires i < |s| && Fields(s[..i]) == done + [token]
    ensures s[i] == ',' ==> Fields(s[..i + 1]) == done + [token] + [""]
    ensures s[i] != ',' ==> Fields(s[..i + 1]) == done + [token + [s[i]]]
  {
    var q := s[..i + 1];
    assert q[..|q| - 1] == s[..i] && q[|q| - 1] == s[i];
    var f := done + [token];
    assert f[..|f| - 1] == done && f[|f| - 1] == token;
  }

  /** A well-formed cipher name: not empty, trimmed, and free of commas. */
  predicate IsCipherName(n: string)
  {
    n != "" && IsTrimmed(n) && ',' !in n
  }

  lemma {:induction false} FieldsHaveNoComma(s: string)
    ensures forall k :: 0 <= k < |Fields(s)| ==> ',' !in Fields(s)[k]
  {
    if s != [] {
      FieldsHaveNoComma(s[..|s| - 1]);
    }
  }

  lemma {:induction false} CleanedAreNames(fields: seq<string>)
    requires forall k :: 0 <= k < |fields| ==> ',' !in fields[k]
    ensures forall k :: 0 <= k < |Cleaned(fields)| ==> IsCipherName(Cleaned(fields)[k])
  {
    if fields != [] {
      CleanedAreNames(fields[..|fields| - 1]);
    }
  }

  /** Joining names with commas, the inverse of the tokenizer. */
  function Join(names: seq<string>): string
  {
    if names == [] then ""
    else if |names| == 1 then names[0]
    else Join(names[..|names| - 1]) + "," + names[|names| - 1]
  }

  /** Joining one more name appends a comma and the name. */
  lemma JoinSnoc(init: seq<string>, last: string)
    requires init != []
    ensures Join(init + [last]) == Join(init) + "," + last
  {
    var ns := init + [last];
    assert ns[..|ns| - 1] == init;
  }

  /** Round trip the other way: joining the fields of any string with commas
      gives the string back, so the split loses nothing but the delimiters. */
  lemma {:induction false} JoinOfFields(s: string)
    ensures Join(Fields(s)) == s
  {
    if s != [] {
      var p, c := s[..|s| - 1], s[|s| - 1];
      assert s == p + [c];
      var f := Fields(p);
      JoinOfFields(p);
      var n := |f| - 1;
      if c == ',' {
        JoinSnoc(f, "");
      } else if n == 0 {
        assert Fields(s) == [f[0] + [c]];
      } else {
        assert f == f[..n] + [f[n]];
        JoinSnoc(f[..n], f[n]);
        JoinSnoc(f[..n], f[n] + [c]);
      }
    }
  }

  lemma {:induction false} FieldsOfCommaFree(b: string)
    requires ',' !in b
    ensures Fields(b) == [b]
  {
    if b != [] {
      var n := |b| - 1;
      FieldsOfCommaFree(b[..n]);
      assert b[..n] + [b[n]] == b;
    }
  }

  lemma {:induction false} FieldsAfterComma(a: string, b: string)
    requires ',' !in b
    ensures Fields(a + "," + b) == Fields(a) + [b]
  {
    var s := a + "," + b;
    if b == [] {
      assert s[..|s| - 1] == a;
    } else {
      var n := |b| - 1;
      FieldsAfterComma(a, b[..n]);
      assert s[..|s| - 1] == a + "," + b[..n];
      assert b[..n] + [b[n]] == b;
    }
  }

  lemma {:induction false} FieldsOfJoin(names: seq<string>)
    requires names != []
    requires forall k :: 0 <= k < |names| ==> ',' !in names[k]
    ensures Fields(Join(names)) == names
  {
    if |names| == 1 {
      FieldsOfCommaFree(names[0]);
    } else {
      var n := |names| - 1;
      FieldsOfJoin(names[..n]);
      FieldsAfterComma(Join(names[..n]), names[n]);
      assert names[..n] + [names[n]] == names;
    }
  }

  /** Cleaning one more field appends its trimmed form unless that is blank. */
  lemma CleanedSnoc(init: seq<string>, last: string)
    ensures Cleaned(init + [last]) == Cleaned(init) + (if Trim(last) == "" then [] else [Trim(last)])
  {
    var fs := init + [last];
    assert fs[..|fs| - 1] == init && fs[|fs| - 1] == last;
  }

  lemma {:induction false} CleanedOfNames(names: seq<string>)
    requires forall k :: 0 <= k < |names| ==> IsCipherName(names[k])
    ensures Cleaned(names) == names
  {
    if names != [] {
      var n := |names| - 1;
      var init := names[..n];
      var last := names[n];
      assert names == init + [last];
      assert forall k :: 0 <= k < n ==> init[k] == names[k];
      CleanedOfNames(init);
      assert IsTrimmed(last) && last != "";
      CleanedSnoc(init, last);
    }
  }

  /** Round trip: well-formed names joined with commas are read back as the same
      list, in the same order. */
  lemma CipherNamesOfJoin(names: seq<string>)
    requires forall k :: 0 <= k < |names| ==> IsCipherName(names[k])
    ensures CipherNames(Join(names)) == names
  {
    if names == [] {
      assert Fields("") == [""];
    } else {
      FieldsOfJoin(names);
      CleanedOfNames(names);
    }
  }

  lemma FieldsOfThree(a: string, b: string, c: string)
    requires ',' !in a && ',' !in b && ',' !in c
    ensures Fields(a + "," + b + "," + c) == [a, b, c]
  {
    FieldsOfCommaFree(a);
    FieldsAfterComma(a, b);
    FieldsAfterComma(a + "," + b, c);
  }

  lemma CleanedDropsBlank(x: string, y: string, z: string)
    requires Trim(x) != "" && Trim(y) == "" && Trim(z) != ""
    ensures Cleaned([x, y, z]) == [Trim(x), Trim(z)]
  {
    var fs := [x, y, z];
    assert fs[..2] == [x, y];
    assert fs[..2][..1] == [x];
    assert fs[..1][..0] == [];
    assert Cleaned([x]) == [Trim(x)];
    assert Cleaned([x, y]) == [Trim(x)];
    assert Cleaned(fs) == Cleaned([x, y]) + [Trim(z)];
  }

  /** Only the exact string "ALL" and strings holding a ':' take the expression
      path; the comparison with "ALL" is case-sensitive. */
  lemma LegacyCipherStringExamples()
    ensures !IsLegacyCipherString("ALL")
    ensures !IsLegacyCipherString("HIGH:!aNULL")
    ensures IsLegacyCipherString("all")
    ensures IsLegacyCipherString("AES128-SHA,AES256-SHA")
  {
    assert "HIGH:!aNULL"[4] == ':';
  }

  lemma TrimExamples()
    ensures Trim("AES128-SHA") == "AES128-SHA"
    ensures Trim(" ") == ""
    ensures Trim(" AES256-SHA") == "AES256-SHA"
  {
    assert TrimStart(" ") == "";
    assert TrimStart(" AES256-SHA") == "AES256-SHA";
  }

  /** Blank entries between commas are dropped and the surrounding spaces trimmed. */
  lemma CipherNamesExample(s: string)
    requires s == "AES128-SHA, , AES256-SHA"
    ensures CipherNames(s) == ["AES128-SHA", "AES256-SHA"]
  {
    var a, b := "AES128-SHA", " AES256-SHA";
    assert s == a + "," + " " + "," + b;
    FieldsOfThree(a, " ", b);
    TrimExamples();
    CleanedDropsBlank(a, " ", b);
  }
}
