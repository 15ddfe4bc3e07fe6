/** Interface names and prefix wildcards: what they match, when two of them overlap, and the checked
    lists of Docker and trusted interfaces. */
module Ifaces {
  import opened Basics

  // ----- text -----

  /** unicode.IsSpace. */
  predicate IsSpace(c: char) {
    var v := c as int;
    || 0x09 <= v <= 0x0D || v == 0x20 || v == 0x85 || v == 0xA0 || v == 0x1680
    || 0x2000 <= v <= 0x200A || v == 0x2028 || v == 0x2029 || v == 0x202F || v == 0x205F || v == 0x3000
  }

  function TrimLeft(s: string): string {
    if s != "" && IsSpace(s[0]) then TrimLeft(s[1..]) else s
  }

  function TrimRight(s: string): string {
    if s != "" && IsSpace(s[|s| - 1]) then TrimRight(s[..|s| - 1]) else s
  }

  /** strings.TrimSpace. */
  function TrimSpace(s: string): string { TrimRight(TrimLeft(s)) }

  lemma {:induction false} TrimLeftClean(s: string)
    ensures TrimLeft(s) == "" || !IsSpace(TrimLeft(s)[0])
  {
    if s != "" && IsSpace(s[0]) {
      TrimLeftClean(s[1..]);
    }
  }

  lemma {:induction false} TrimRightClean(s: string)
    ensures TrimRight(s) <= s && (TrimRight(s) == "" || !IsSpace(TrimRight(s)[|TrimRight(s)| - 1]))
  {
    if s != "" && IsSpace(s[|s| - 1]) {
      TrimRightClean(s[..|s| - 1]);
    }
  }

  /** Trimming twice is trimming once. */
  lemma TrimTwice(s: string)
    ensures TrimSpace(TrimSpace(s)) == TrimSpace(s)
  {
    TrimLeftClean(s);
    TrimRightClean(TrimLeft(s));
    var t := TrimSpace(s);
    if t != "" {
      assert t[0] == TrimLeft(s)[0];
    }
  }

  predicate AllSpace(s: string) { forall i :: 0 <= i < |s| ==> IsSpace(s[i]) }

  lemma {:induction false} TrimLeftMeans(s: string) returns (a: string)
    ensures AllSpace(a) && s == a + TrimLeft(s)
  {
    if s != "" && IsSpace(s[0]) {
      var rest := TrimLeftMeans(s[1..]);
      a := [s[0]] + rest;
      assert s == [s[0]] + s[1..] == [s[0]] + (rest + TrimLeft(s)) == a + TrimLeft(s);
    } else {
      a := "";
    }
  }

  lemma {:induction false} TrimRightMeans(s: string) returns (b: string)
    ensures AllSpace(b) && s == TrimRight(s) + b
  {
    if s != "" && IsSpace(s[|s| - 1]) {
      var front := s[..|s| - 1];
      var rest := TrimRightMeans(front);
      b := rest + [s[|s| - 1]];
      assert s == front + [s[|s| - 1]] == (TrimRight(s) + rest) + [s[|s| - 1]] == TrimRight(s) + b;
    } else {
      b := "";
    }
  }

  /** Trimming takes away spaces at both ends and nothing else, and all of them. */
  lemma TrimMeans(s: string) returns (a: string, b: string)
    ensures AllSpace(a) && AllSpace(b) && s == a + TrimSpace(s) + b
    ensures var t := TrimSpace(s); t == "" || (!IsSpace(t[0]) && !IsSpace(t[|t| - 1]))
  {
    a := TrimLeftMeans(s);
    b := TrimRightMeans(TrimLeft(s));
    TrimLeftClean(s);
    TrimRightClean(TrimLeft(s));
    var t := TrimSpace(s);
    if t != "" {
      assert t[0] == TrimLeft(s)[0];
    }
  }

  predicate HasPrefix(s: string, p: string) { p <= s }

  /** The pattern ends in "*". */
  predicate IsWild(p: string) { p != "" && p[|p| - 1] == '*' }

  /** strings.TrimSuffix(p, "*"). */
  function Stem(p: string): string { if IsWild(p) then p[..|p| - 1] else p }

  // ----- matching -----

  predicate IfaceMatches(pattern: string, name: string) {
    if IsWild(pattern) then HasPrefix(name, Stem(pattern)) else pattern == name
  }

  predicate PatternsOverlap(a: string, b: string) {
    if IsWild(a) && IsWild(b) then HasPrefix(Stem(a), Stem(b)) || HasPrefix(Stem(b), Stem(a))
    else if IsWild(a) then HasPrefix(b, Stem(a))
    else if IsWild(b) then HasPrefix(a, Stem(b))
    else a == b
  }

  /** A name both patterns match, when they overlap. */
  function CommonName(a: string, b: string): string {
    if !IsWild(b) then b else if !IsWild(a) then a
    else if HasPrefix(Stem(a), Stem(b)) then Stem(a) else Stem(b)
  }

  /** The overlap test is exact: it holds just when some name matches both patterns. */
  lemma OverlapIsExact(a: string, b: string)
    ensures PatternsOverlap(a, b) <==> exists name :: IfaceMatches(a, name) && IfaceMatches(b, name)
  {
    if PatternsOverlap(a, b) {
      assert IfaceMatches(a, CommonName(a, b)) && IfaceMatches(b, CommonName(a, b));
    } else {
      forall name | IfaceMatches(a, name) && IfaceMatches(b, name) ensures false {
        if IsWild(a) && IsWild(b) {
          PrefixesCompare(Stem(a), Stem(b), name);
        }
      }
    }
  }

  lemma PrefixesCompare(p: string, q: string, s: string)
    requires p <= s && q <= s
    ensures p <= q || q <= p
  {
    if |p| <= |q| {
      assert p == s[..|p|] == s[..|q|][..|p|] == q[..|p|];
    } else {
      assert q == s[..|q|] == s[..|p|][..|q|] == p[..|q|];
    }
  }

  // ----- the characters allowed -----

  predicate NameChar(c: char) {
    'A' <= c <= 'Z' || 'a' <= c <= 'z' || '0' <= c <= '9' || c == '_' || c == '.' || c == ':' || c == '-'
  }

  predicate NameChars(s: string) { forall i :: 0 <= i < |s| ==> NameChar(s[i]) }

  /** ^[A-Za-z0-9_.:-]{1,15}$ */
  predicate ValidName(s: string) { 1 <= |s| <= 15 && NameChars(s) }

  /** ^[A-Za-z0-9_.:-]{1,14}\*?$ */
  predicate ValidPattern(s: string) { 1 <= |Stem(s)| <= 14 && NameChars(Stem(s)) }

  /** A pattern has one to fourteen legal characters, and may have a star after them. */
  lemma PatternMeans(s: string)
    ensures ValidPattern(s) <==> exists t :: 1 <= |t| <= 14 && NameChars(t) && (s == t || s == t + "*")
  {
    if ValidPattern(s) {
      var t := Stem(s);
      assert s == t || s == t + "*";
    }
    if t :| 1 <= |t| <= 14 && NameChars(t) && (s == t || s == t + "*") {
      assert NameChar(t[|t| - 1]);
      assert Stem(s) == t;
    }
  }

  /** The default bridge patterns are legal, and so is a name of fifteen characters; one of sixteen is not. */
  lemma NameLimits(s: string)
    requires forall i :: 0 <= i < |s| ==> s[i] in "eth0.-_:Z9"
    ensures ValidName(s) <==> 1 <= |s| <= 15
    ensures ValidPattern("docker0") && ValidPattern("br-*")
  {
    forall i | 0 <= i < |s| ensures NameChar(s[i]) {
      assert s[i] in "eth0.-_:Z9";
    }
    assert Stem("br-*") == "br-";
    assert Stem("docker0") == "docker0";
  }

  /** For patterns that pass the check, the common name is one an interface may really have. */
  lemma OverlapIsReal(a: string, b: string)
    requires ValidPattern(a) && (ValidPattern(b) || ValidName(b))
    ensures PatternsOverlap(a, b) <==> exists name :: ValidName(name) && IfaceMatches(a, name) && IfaceMatches(b, name)
  {
    OverlapIsExact(a, b);
    if PatternsOverlap(a, b) {
      var name := CommonName(a, b);
      assert ValidName(name) && IfaceMatches(a, name) && IfaceMatches(b, name);
    }
  }

  /** A plain name, as a pattern, matches itself only. */
  lemma NameIsPlain(s: string)
    requires ValidName(s)
    ensures !IsWild(s) && forall name :: IfaceMatches(s, name) <==> name == s
  {
    assert NameChar(s[|s| - 1]);
  }

  // ----- checked pattern lists -----

  datatype PatternError = BadPattern(pattern: string) | Reserved(pattern: string, name: string) | NoPatterns

  type Patterns = Result<seq<string>, PatternError>

  /** The trimmed, non-blank inputs in order of first appearance. */
  function Distinct(raw: seq<string>): seq<string> {
    if raw == [] then []
    else
      var before, p := Distinct(raw[..|raw| - 1]), TrimSpace(raw[|raw| - 1]);
      if p == "" || p in before then before else before + [p]
  }

  /** The first reserved name the pattern overlaps; a blank reserved name reserves nothing. */
  function FirstTaken(p: string, reserved: seq<string>): Option<string> {
    if reserved == [] then None
    else match FirstTaken(p, reserved[..|reserved| - 1])
      case Some(n) => Some(n)
      case None =>
        var n := reserved[|reserved| - 1];
        if n != "" && PatternsOverlap(p, n) then Some(n) else None
  }

  function Complaint(p: string, reserved: seq<string>): Option<PatternError> {
    if !ValidPattern(p) then Some(BadPattern(p))
    else match FirstTaken(p, reserved)
      case Some(n) => Some(Reserved(p, n))
      case None => None
  }

  function FirstComplaint(ps: seq<string>, reserved: seq<string>): Option<PatternError> {
    if ps == [] then None
    else match FirstComplaint(ps[..|ps| - 1], reserved)
      case Some(e) => Some(e)
      case None => Complaint(ps[|ps| - 1], reserved)
  }

  function Checked(raw: seq<string>, reserved: seq<string>): Patterns {
    match FirstComplaint(Distinct(raw), reserved)
    case Some(e) => Err(e)
    case None => Ok(Distinct(raw))
  }

  lemma {:induction false} FirstComplaintPrefix(ps: seq<string>, i: nat, reserved: seq<string>)
    requires i <= |ps| && FirstComplaint(ps[..i], reserved).Some?
    ensures FirstComplaint(ps, reserved) == FirstComplaint(ps[..i], reserved)
    decreases |ps| - i
  {
    if i < |ps| {
      assert ps[..i + 1][..i] == ps[..i];
      FirstComplaintPrefix(ps, i + 1, reserved);
    } else {
      assert ps[..i] == ps;
    }
  }

  lemma {:induction false} DistinctPrefix(raw: seq<string>, i: nat)
    requires i <= |raw|
    ensures Distinct(raw[..i]) <= Distinct(raw)
    decreases |raw| - i
  {
    if i < |raw| {
      assert raw[..i + 1][..i] == raw[..i];
      DistinctPrefix(raw, i + 1);
    } else {
      assert raw[..i] == raw;
    }
  }

  lemma DistinctStep(raw: seq<string>, i: nat)
    requires i < |raw|
    ensures var before, p := Distinct(raw[..i]), TrimSpace(raw[i]);
      Distinct(raw[..i + 1]) == if p == "" || p in before then before else before + [p]
  {
    assert raw[..i + 1][..i] == raw[..i] && raw[..i + 1][i] == raw[i];
  }

  lemma ComplainsAt(raw: seq<string>, i: nat, reserved: seq<string>)
    requires i <= |raw| && FirstComplaint(Distinct(raw[..i]), reserved).Some?
    ensures Checked(raw, reserved) == Err(FirstComplaint(Distinct(raw[..i]), reserved).value)
  {
    DistinctPrefix(raw, i);
    var n := |Distinct(raw[..i])|;
    assert Distinct(raw)[..n] == Distinct(raw[..i]);
    FirstComplaintPrefix(Distinct(raw), n, reserved);
  }

  lemma ComplaintSnoc(ps: seq<string>, p: string, reserved: seq<string>)
    requires FirstComplaint(ps, reserved) == None
    ensures FirstComplaint(ps + [p], reserved) == Complaint(p, reserved)
  {
    assert (ps + [p])[..|ps|] == ps;
  }

  method ValidatePatterns(raw: seq<string>, reserved: seq<string>) returns (r: Patterns)
    ensures r == Checked(raw, reserved)
  {
    var out: seq<string> := [];
    var seen: set<string> := {};
    for i := 0 to |raw|
      invariant out == Distinct(raw[..i]) && FirstComplaint(out, reserved) == None
      invariant forall p :: p in seen <==> p in out
    {
      var pat := TrimSpace(raw[i]);
      DistinctStep(raw, i);
      if pat == "" || pat in seen {
        continue;
      }
      var e := Check(pat, reserved);
      ComplaintSnoc(out, pat, reserved);
      if e.Some? {
        ComplainsAt(raw, i + 1, reserved);
        return Err(e.value);
      }
      seen := seen + {pat};
      out := out + [pat];
    }
    assert raw[..|raw|] == raw;
    return Ok(out);
  }

  /** The body of the loop: one pattern against the character class and every reserved name. */
  method Check(pat: string, reserved: seq<string>) returns (e: Option<PatternError>)
    ensures e == Complaint(pat, reserved)
  {
    if !ValidPattern(pat) {
      return Some(BadPattern(pat));
    }
    for i := 0 to |reserved|
      invariant FirstTaken(pat, reserved[..i]) == None
    {
      assert reserved[..i + 1][..i] == reserved[..i] && reserved[..i + 1][i] == reserved[i];
      if reserved[i] != "" && PatternsOverlap(pat, reserved[i]) {
        FirstTakenPrefix(pat, reserved, i + 1);
        return Some(Reserved(pat, reserved[i]));
      }
    }
    assert reserved[..|reserved|] == reserved;
    return None;
  }

  lemma {:induction false} FirstTakenPrefix(p: string, reserved: seq<string>, i: nat)
    requires i <= |reserved| && FirstTaken(p, reserved[..i]).Some?
    ensures FirstTaken(p, reserved) == FirstTaken(p, reserved[..i])
    decreases |reserved| - i
  {
    if i < |reserved| {
      assert reserved[..i + 1][..i] == reserved[..i];
      FirstTakenPrefix(p, reserved, i + 1);
    } else {
      assert reserved[..i] == reserved;
    }
  }

  lemma {:induction false} FirstTakenMeans(p: string, reserved: seq<string>)
    ensures FirstTaken(p, reserved) == None <==> forall n :: n in reserved && n != "" ==> !PatternsOverlap(p, n)
    ensures FirstTaken(p, reserved).Some? ==>
      FirstTaken(p, reserved).value in reserved && PatternsOverlap(p, FirstTaken(p, reserved).value)
  {
    if reserved != [] {
      var front := reserved[..|reserved| - 1];
      FirstTakenMeans(p, front);
      assert reserved == front + [reserved[|reserved| - 1]];
    }
  }

  lemma {:induction false} NoComplaintMeans(ps: seq<string>, reserved: seq<string>)
    ensures FirstComplaint(ps, reserved) == None <==> forall p :: p in ps ==> Complaint(p, reserved) == None
  {
    if ps != [] {
      var front := ps[..|ps| - 1];
      NoComplaintMeans(front, reserved);
      assert ps == front + [ps[|ps| - 1]];
    }
  }

  lemma {:induction false} DistinctMeans(raw: seq<string>)
    ensures forall p :: p in Distinct(raw) <==> p != "" && exists i :: 0 <= i < |raw| && TrimSpace(raw[i]) == p
    ensures forall i, j :: 0 <= i < j < |Distinct(raw)| ==> Distinct(raw)[i] != Distinct(raw)[j]
  {
    if raw != [] {
      var front := raw[..|raw| - 1];
      DistinctMeans(front);
      assert forall i :: 0 <= i < |front| ==> front[i] == raw[i];
      forall p ensures p in Distinct(raw) <==> p != "" && exists i :: 0 <= i < |raw| && TrimSpace(raw[i]) == p {
        if p != "" && exists i :: 0 <= i < |raw| && TrimSpace(raw[i]) == p {
          var i :| 0 <= i < |raw| && TrimSpace(raw[i]) == p;
          assert i < |front| ==> TrimSpace(front[i]) == p;
        }
      }
    }
  }

  /** A list passes exactly when every non-blank input is a pattern that no name it may not touch
      matches; what passes is each such input once, trimmed. */
  lemma CheckedMeans(raw: seq<string>, reserved: seq<string>)
    ensures Checked(raw, reserved).Ok? <==>
      forall i :: 0 <= i < |raw| && TrimSpace(raw[i]) != "" ==>
        ValidPattern(TrimSpace(raw[i]))
        && forall n, name :: n in reserved && n != "" && IfaceMatches(n, name) ==> !IfaceMatches(TrimSpace(raw[i]), name)
    ensures Checked(raw, reserved).Ok? ==>
      forall p :: p in Checked(raw, reserved).value <==> p != "" && exists i :: 0 <= i < |raw| && TrimSpace(raw[i]) == p
  {
    var ps := Distinct(raw);
    NoComplaintMeans(ps, reserved);
    DistinctMeans(raw);
    forall p ensures Complaint(p, reserved) == None <==>
      ValidPattern(p) && forall n, name :: n in reserved && n != "" && IfaceMatches(n, name) ==> !IfaceMatches(p, name)
    {
      FirstTakenMeans(p, reserved);
      forall n | n in reserved ensures PatternsOverlap(p, n) <==> exists name :: IfaceMatches(p, name) && IfaceMatches(n, name) {
        OverlapIsExact(p, n);
      }
    }
    assert forall i :: 0 <= i < |raw| && TrimSpace(raw[i]) != "" ==> TrimSpace(raw[i]) in ps;
  }
}
