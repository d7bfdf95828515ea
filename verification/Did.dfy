/**
 * The DID acceptor: index loops over code units, checked against the grammar that the package
 * documents. HEXDIG is that of RFC 5234, where letters stand for both cases; the code accepts
 * upper-case ones only.
 */
module Dids {
  import opened Prelude

  // JavaScript strings are sequences of 16-bit code units.
  type CodeUnit = c: nat | c < 0x10000
  type Text = seq<CodeUnit>

  datatype Outcome = Accepted | InvalidDid | BadPosition

  const DID_PREFIX: Text := [0x64, 0x69, 0x64, 0x3a]  // did:
  const COLON: CodeUnit := 0x3a
  const PERCENT: CodeUnit := 0x25

  /** `charCodeAt`; None is NaN, with which every comparison is false. */
  function CharCodeAt(input: Text, i: nat): Option<CodeUnit> {
    if i < |input| then Some(input[i]) else None
  }

  // ----- the grammar -----

  predicate MethodChar(c: CodeUnit) {
    0x61 <= c <= 0x7a || 0x30 <= c <= 0x39
  }

  /** HEXDIG of the grammar. */
  predicate HexDigit(c: CodeUnit) {
    0x30 <= c <= 0x39 || 0x41 <= c <= 0x46 || LowerHexDigit(c)
  }

  predicate LowerHexDigit(c: CodeUnit) {
    0x61 <= c <= 0x66
  }

  predicate PlainIdChar(c: CodeUnit) {
    || 0x61 <= c <= 0x7a || 0x41 <= c <= 0x5a || 0x30 <= c <= 0x39
    || c == 0x2e || c == 0x2d || c == 0x5f
  }

  /** idchar = ALPHA / DIGIT / "." / "-" / "_" / pct-encoded */
  predicate IdChar(u: Text) {
    || (|u| == 1 && PlainIdChar(u[0]))
    || (|u| == 3 && u[0] == PERCENT && HexDigit(u[1]) && HexDigit(u[2]))
  }

  /** *idchar */
  ghost predicate IdChars(s: Text)
    decreases |s|
  {
    s == [] || exists n :: 1 <= n <= |s| && IdChar(s[..n]) && IdChars(s[n..])
  }

  /** method-specific-id = *( *idchar ":" ) 1*idchar */
  ghost predicate Msid(s: Text)
    decreases |s|
  {
    || (s != [] && IdChars(s))
    || exists k :: 0 <= k < |s| && s[k] == COLON && IdChars(s[..k]) && Msid(s[k + 1..])
  }

  /** method-name = 1*method-char */
  predicate MethodName(s: Text) {
    s != [] && forall i :: 0 <= i < |s| ==> MethodChar(s[i])
  }

  /** did = "did:" method-name ":" method-specific-id */
  ghost predicate IsDid(s: Text, name: Text, msid: Text) {
    s == DID_PREFIX + name + [COLON] + msid && MethodName(name) && Msid(msid)
  }

  /** No lower-case hexadecimal digit stands where a percent code has its digits. */
  predicate UpperPercents(s: Text) {
    forall i :: 0 <= i < |s| && s[i] == PERCENT ==>
      (i + 1 < |s| ==> !LowerHexDigit(s[i + 1])) && (i + 2 < |s| ==> !LowerHexDigit(s[i + 2]))
  }

  // ----- what the loop recognizes -----

  predicate UpperHexDigit(c: CodeUnit) {
    HexDigit(c) && !LowerHexDigit(c)
  }

  /** From some position on, the loop over the method-specific identifier runs to the end without a complaint. */
  predicate Scans(s: Text)
    decreases |s|
  {
    || s == []
    || (PlainIdChar(s[0]) && Scans(s[1..]))
    || (s[0] == COLON && |s| > 1 && Scans(s[1..]))
    || (s[0] == PERCENT && |s| >= 3 && UpperHexDigit(s[1]) && UpperHexDigit(s[2]) && Scans(s[3..]))
  }

  /** Prefixing one idchar. */
  lemma IdCharsCons(s: Text, n: nat)
    requires 1 <= n <= |s| && IdChar(s[..n]) && IdChars(s[n..])
    ensures IdChars(s)
  {
  }

  lemma MsidAtColon(s: Text, k: nat)
    requires k < |s| && s[k] == COLON && IdChars(s[..k]) && Msid(s[k + 1..])
    ensures Msid(s)
  {
  }

  lemma MsidConsBefore(s: Text, n: nat, k: nat)
    requires 1 <= n <= n + k < |s| && IdChar(s[..n]) && s[n + k] == COLON
    requires IdChars(s[n..n + k]) && Msid(s[n + k + 1..])
    ensures Msid(s)
  {
    hide IdChars, IdChar, Msid;
    var front := s[..n + k];
    assert front[..n] == s[..n] && front[n..] == s[n..n + k];
    IdCharsCons(front, n);
    MsidAtColon(s, n + k);
  }

  lemma MsidCons(s: Text, n: nat)
    requires 1 <= n < |s| && IdChar(s[..n]) && Msid(s[n..])
    ensures Msid(s)
  {
    hide IdChars, IdChar;
    var rest := s[n..];
    if IdChars(rest) {
      IdCharsCons(s, n);
    } else {
      var k :| 0 <= k < |rest| && rest[k] == COLON && IdChars(rest[..k]) && Msid(rest[k + 1..]);
      hide Msid;
      assert s[n..n + k] == rest[..k];
      assert s[n + k + 1..] == rest[k + 1..];
      MsidConsBefore(s, n, k);
    }
  }

  /** What the loop lets pass has upper-case percent codes only. */
  lemma {:induction false} ScansIsUpper(s: Text)
    requires Scans(s)
    ensures UpperPercents(s)
    decreases |s|
  {
    if s != [] {
      var n := if s[0] == PERCENT then 3 else 1;
      ScansIsUpper(s[n..]);
      assert forall i :: n <= i < |s| ==> s[n..][i - n] == s[i];
      if s[0] == PERCENT {
        assert s[1] != PERCENT && s[2] != PERCENT;
      }
    }
  }

  lemma {:induction false} ScansIsMsid(s: Text)
    requires s != [] && Scans(s)
    ensures Msid(s)
    decreases |s|
  {
    if s[0] == COLON && !PlainIdChar(s[0]) {
      ScansIsMsid(s[1..]);
      assert IdChars(s[..0]) && s[0 + 1..] == s[1..];
    } else {
      var n := if PlainIdChar(s[0]) then 1 else 3;
      assert IdChar(s[..n]);
      if |s| == n {
        assert s[n..] == [] && IdChars(s[n..]);
        IdCharsCons(s, n);
      } else {
        ScansIsMsid(s[n..]);
        MsidCons(s, n);
      }
    }
  }

  lemma UpperSlice(s: Text, from: nat, to: nat)
    requires from <= to <= |s| && UpperPercents(s)
    ensures UpperPercents(s[from..to])
  {
    var t := s[from..to];
    assert forall i :: 0 <= i < |t| ==> t[i] == s[from + i];
  }

  lemma IdCharScans(c: Text, rest: Text)
    requires IdChar(c) && UpperPercents(c) && Scans(rest)
    ensures Scans(c + rest)
  {
    assert (c + rest)[|c|..] == rest;
  }

  lemma {:induction false} IdCharsScan(a: Text, b: Text)
    requires IdChars(a) && UpperPercents(a) && Scans(b)
    ensures Scans(a + b)
    decreases |a|
  {
    hide Scans, IdChar, UpperPercents;
    if a == [] {
      assert a + b == b;
    } else {
      var n :| 1 <= n <= |a| && IdChar(a[..n]) && IdChars(a[n..]);
      UpperSlice(a, 0, n);
      UpperSlice(a, n, |a|);
      assert a[0..n] == a[..n] && a[n..|a|] == a[n..];
      IdCharsScan(a[n..], b);
      IdCharScans(a[..n], a[n..] + b);
      assert a + b == a[..n] + (a[n..] + b);
    }
  }

  lemma ColonScans(rest: Text)
    requires rest != [] && Scans(rest)
    ensures Scans([COLON] + rest)
  {
    assert ([COLON] + rest)[1..] == rest;
  }

  lemma NothingLeft()
    ensures Scans([])
  {
  }

  /** Whatever derives from the grammar, with upper-case percent codes, passes the loop. */
  lemma {:induction false} MsidScans(s: Text)
    requires Msid(s) && UpperPercents(s)
    ensures s != [] && Scans(s)
    decreases |s|
  {
    hide UpperPercents, Scans, IdChar, IdChars;
    if s != [] && IdChars(s) {
      NothingLeft();
      IdCharsScan(s, []);
      assert s + [] == s;
    } else {
      var k :| 0 <= k < |s| && s[k] == COLON && IdChars(s[..k]) && Msid(s[k + 1..]);
      var front, rest := s[..k], s[k + 1..];
      UpperSlice(s, 0, k);
      UpperSlice(s, k + 1, |s|);
      assert s[0..k] == front && s[k + 1..|s|] == rest;
      MsidScans(rest);
      ColonScans(rest);
      IdCharsScan(front, [COLON] + rest);
      assert s == front + ([COLON] + rest);
    }
  }

  lemma ScansExactly(s: Text)
    ensures s != [] && Scans(s) <==> Msid(s) && UpperPercents(s)
  {
    hide Msid, Scans, UpperPercents;
    if s != [] && Scans(s) {
      ScansIsMsid(s);
      ScansIsUpper(s);
    }
    if Msid(s) && UpperPercents(s) {
      MsidScans(s);
    }
  }

  // ----- the acceptors -----

  method AssertDidMethod(input: Text, start: nat, end: nat) returns (r: Outcome)
    ensures r == BadPosition <==> end < start || end > |input|
    ensures r == Accepted <==> start <= end <= |input| && MethodName(input[start..end])
  {
    if end < start || end > |input| {
      return BadPosition;
    }
    if end == start {
      return InvalidDid;
    }
    for i := start to end
      invariant forall j :: start <= j < i ==> MethodChar(input[j])
    {
      var c := input[i];
      if (c < 0x61 || c > 0x7a) && (c < 0x30 || c > 0x39) {
        assert !MethodChar(input[start..end][i - start]);
        return InvalidDid;
      }
    }
    r := Accepted;
  }

  /** A comparison with NaN is false, so a missing code unit is not rejected here. */
  predicate NotHex(c: Option<CodeUnit>) {
    c.Some? && (c.value < 0x30 || c.value > 0x39) && (c.value < 0x41 || c.value > 0x46)
  }

  /** How the scan goes on from position i. */
  lemma ScansAt(input: Text, i: nat, end: nat)
    requires i < end <= |input|
    ensures PlainIdChar(input[i]) ==> (Scans(input[i..end]) <==> Scans(input[i + 1..end]))
    ensures input[i] == COLON ==> (Scans(input[i..end]) <==> i < end - 1 && Scans(input[i + 1..end]))
    ensures input[i] == PERCENT ==>
              (Scans(input[i..end]) <==>
                 i + 2 < end && UpperHexDigit(input[i + 1]) && UpperHexDigit(input[i + 2])
                 && Scans(input[i + 3..end]))
    ensures !PlainIdChar(input[i]) && input[i] != COLON && input[i] != PERCENT ==> !Scans(input[i..end])
  {
    var s := input[i..end];
    assert s != [] && s[0] == input[i] && s[1..] == input[i + 1..end];
    if i + 3 <= end {
      assert s[1] == input[i + 1] && s[2] == input[i + 2] && s[3..] == input[i + 3..end];
    }
  }

  method AssertDidMsid(input: Text, start: nat, end: nat) returns (r: Outcome)
    ensures r == BadPosition <==> end < start || end > |input|
    ensures r == Accepted <==> start <= end <= |input| && Msid(input[start..end]) && UpperPercents(input[start..end])
  {
    hide Msid, Scans, UpperPercents;
    if end < start || end > |input| {
      return BadPosition;
    }
    ghost var s := input[start..end];
    ScansExactly(s);
    NothingLeft();
    assert input[end..end] == [];
    if end == start {
      return InvalidDid;
    }
    var i := start;
    while i < end
      invariant start <= i <= end
      invariant Scans(s) <==> Scans(input[i..end])
    {
      ScansAt(input, i, end);
      var c := input[i];
      if (c < 0x61 || c > 0x7a) && (c < 0x41 || c > 0x5a) && (c < 0x30 || c > 0x39)
         && c != 0x2e && c != 0x2d && c != 0x5f {
        if c == 0x3a {
          if i == end - 1 {
            return InvalidDid;
          }
        } else if c == 0x25 {
          i := i + 1;
          if NotHex(CharCodeAt(input, i)) {
            return InvalidDid;
          }
          i := i + 1;
          if NotHex(CharCodeAt(input, i)) {
            return InvalidDid;
          }
          if i >= end {
            return InvalidDid;
          }
        } else {
          return InvalidDid;
        }
      }
      i := i + 1;
    }
    r := Accepted;
  }

  /** `indexOf(':', from)` */
  method IndexOfColon(input: Text, from: nat) returns (at: Option<nat>)
    ensures at.Some? ==> from <= at.value < |input| && input[at.value] == COLON
                         && forall j :: from <= j < at.value ==> input[j] != COLON
    ensures at.None? ==> forall j :: from <= j < |input| ==> input[j] != COLON
  {
    var i := from;
    while i < |input|
      invariant from <= i && forall j :: from <= j < i && j < |input| ==> input[j] != COLON
    {
      if input[i] == COLON {
        return Some(i);
      }
      i := i + 1;
    }
    at := None;
  }

  /** The separator of a DID is the first colon after the prefix. */
  lemma SeparatorIsFirstColon(s: Text, m: Text, msid: Text)
    requires IsDid(s, m, msid)
    ensures |s| > 4 + |m| && s[..4] == DID_PREFIX && s[4 + |m|] == COLON
    ensures forall j :: 4 <= j < 4 + |m| ==> s[j] != COLON
    ensures s[4..4 + |m|] == m && s[4 + |m| + 1..] == msid
  {
    forall j | 4 <= j < 4 + |m| ensures s[j] != COLON {
      assert s[j] == m[j - 4] && MethodChar(m[j - 4]);
    }
  }

  /**
   * Exactly the strings of at most 2048 code units are accepted that the grammar derives and that have no lower-case
   * digit in a percent code.
   */
  method AssertDid(input: Text) returns (r: Outcome)
    ensures r == Accepted || r == InvalidDid
    ensures r == Accepted <==>
            |input| <= 2048 && UpperPercents(input) && exists m, msid :: IsDid(input, m, msid)
  {
    hide Msid;
    if |input| > 2048 {
      return InvalidDid;
    }
    if !(DID_PREFIX <= input) {
      forall m, msid ensures !IsDid(input, m, msid) {
        if IsDid(input, m, msid) {
          SeparatorIsFirstColon(input, m, msid);
        }
      }
      return InvalidDid;
    }
    var idSep := IndexOfColon(input, 4);
    if idSep.None? {
      forall m, msid ensures !IsDid(input, m, msid) {
        if IsDid(input, m, msid) {
          SeparatorIsFirstColon(input, m, msid);
        }
      }
      return InvalidDid;
    }
    ghost var m, msid := input[4..idSep.value], input[idSep.value + 1..];
    UniqueParts(input, idSep.value);
    r := AssertDidMethod(input, 4, idSep.value);
    if r == Accepted {
      r := AssertDidMsid(input, idSep.value + 1, |input|);
      assert input[idSep.value + 1..|input|] == msid;
      if Msid(msid) {
        UpperInMsid(input, m, msid);
      }
    }
  }

  lemma UpperBehind(front: Text, s: Text)
    requires PERCENT !in front
    ensures UpperPercents(front + s) <==> UpperPercents(s)
  {
    var all, n := front + s, |front|;
    if UpperPercents(all) {
      UpperSlice(all, n, |all|);
      assert all[n..|all|] == s;
    }
    assert forall i :: n <= i < |all| ==> all[i] == s[i - n];
    assert forall i :: 0 <= i < n ==> all[i] == front[i] && front[i] in front;
  }

  /** In a DID, percent codes stand in the method-specific identifier only. */
  lemma UpperInMsid(s: Text, m: Text, msid: Text)
    requires IsDid(s, m, msid)
    ensures UpperPercents(s) <==> UpperPercents(msid)
  {
    hide Msid, UpperPercents;
    assert forall c :: c in m ==> MethodChar(c);
    UpperBehind(DID_PREFIX + m + [COLON], msid);
  }

  /** `did:a:%aa` derives from the grammar and is refused. */
  lemma LowerCaseIsRefused()
    ensures var s := DID_PREFIX + [0x61] + [COLON] + [PERCENT, 0x61, 0x61];
            IsDid(s, [0x61], [PERCENT, 0x61, 0x61]) && !UpperPercents(s)
    ensures Msid([PERCENT, 0x61, 0x61]) && !Scans([PERCENT, 0x61, 0x61])
  {
    var code: Text := [PERCENT, 0x61, 0x61];
    var s := DID_PREFIX + [0x61] + [COLON] + code;
    assert IdChar(code[..3]) && IdChars(code[3..]) by { assert code[..3] == code && code[3..] == []; }
    IdCharsCons(code, 3);
    assert s[6] == PERCENT && s[7] == 0x61;
    assert code[0] == PERCENT && code[1] == 0x61;
    ScansExactly(code);
  }

  /** A DID derives in one way only: its parts lie before and after the first colon behind the prefix. */
  lemma UniqueParts(input: Text, sep: nat)
    requires DID_PREFIX <= input && 4 <= sep < |input| && input[sep] == COLON
    requires forall j :: 4 <= j < sep ==> input[j] != COLON
    ensures forall m, msid :: IsDid(input, m, msid) ==> m == input[4..sep] && msid == input[sep + 1..]
    ensures (exists m, msid :: IsDid(input, m, msid)) <==> IsDid(input, input[4..sep], input[sep + 1..])
    ensures IsDid(input, input[4..sep], input[sep + 1..]) <==> MethodName(input[4..sep]) && Msid(input[sep + 1..])
  {
    hide Msid;
    assert input == DID_PREFIX + input[4..sep] + [COLON] + input[sep + 1..];
    forall m, msid | IsDid(input, m, msid) ensures m == input[4..sep] && msid == input[sep + 1..] {
      SeparatorIsFirstColon(input, m, msid);
      assert 4 + |m| == sep;
    }
  }

  /** `extractDidMethod`; without a second colon, `slice` with -1 leaves out the last code unit. */
  method ExtractDidMethod(did: Text) returns (name: Text)
    ensures forall m, msid :: IsDid(did, m, msid) ==> name == m
  {
    var msidSep := IndexOfColon(did, 4);
    forall m, msid | IsDid(did, m, msid) ensures msidSep == Some(4 + |m|) && did[4..4 + |m|] == m {
      SeparatorIsFirstColon(did, m, msid);
    }
    if msidSep.Some? {
      name := did[4..msidSep.value];
    } else {
      name := if |did| >= 5 then did[4..|did| - 1] else [];
    }
  }
}
