/**
 * Python string operations the engine relies on: substring test (`p in s`),
 * `str.replace`, `str.split` and `str.strip`, modelled on `seq<char>` with
 * their exact Python semantics, each paired with an independent
 * specification or an inverse.
 */
module Text {
  import opened Wrappers

  /** Independent specification: `p` occurs in `s` at index `i`. */
  ghost predicate OccursAt(s: string, p: string, i: int) {
    0 <= i && i + |p| <= |s| && s[i..i + |p|] == p
  }

  /** Independent specification of Python's `p in s`. */
  ghost predicate Substring(p: string, s: string) {
    exists i :: OccursAt(s, p, i)
  }

  /** Character-by-character comparison of `p[t..]` against `s[i + t..]`. */
  predicate MatchFrom(s: string, p: string, i: nat, t: nat)
    requires i + |p| <= |s| && t <= |p|
    decreases |p| - t
  {
    t == |p| || (s[i + t] == p[t] && MatchFrom(s, p, i, t + 1))
  }

  lemma {:induction false} MatchFromSpec(s: string, p: string, i: nat, t: nat)
    requires i + |p| <= |s| && t <= |p|
    ensures MatchFrom(s, p, i, t) <==> forall u :: t <= u < |p| ==> s[i + u] == p[u]
    decreases |p| - t
  {
    if t < |p| {
      MatchFromSpec(s, p, i, t + 1);
    }
  }

  lemma MatchFromOccurs(s: string, p: string, i: nat)
    requires i + |p| <= |s|
    ensures MatchFrom(s, p, i, 0) <==> OccursAt(s, p, i)
  {
    MatchFromSpec(s, p, i, 0);
    if MatchFrom(s, p, i, 0) {
      assert s[i..i + |p|] == p;
    }
  }

  /** First index `>= i` at which `p` occurs in `s` (Python's `s.find(p, i)`). */
  function IndexFrom(s: string, p: string, i: nat): (r: Option<nat>)
    requires i <= |s|
    ensures r.Some? ==> i <= r.value && OccursAt(s, p, r.value)
    ensures r.Some? ==> forall j :: i <= j < r.value ==> !OccursAt(s, p, j)
    ensures r.None? ==> forall j :: i <= j ==> !OccursAt(s, p, j)
    decreases |s| - i
  {
    if |s| < i + |p| then None
    else if MatchFrom(s, p, i, 0) then MatchFromOccurs(s, p, i); Some(i)
    else MatchFromOccurs(s, p, i); IndexFrom(s, p, i + 1)
  }

  function IndexOf(s: string, p: string): Option<nat> {
    IndexFrom(s, p, 0)
  }

  /** Python's `p in s`. */
  predicate Contains(s: string, p: string) {
    IndexOf(s, p).Some?
  }

  lemma ContainsIsSubstring(s: string, p: string)
    ensures Contains(s, p) <==> Substring(p, s)
  {
    if Substring(p, s) {
      var i :| OccursAt(s, p, i);
    }
  }

  /** An occurrence at a known index makes the search succeed no later than it. */
  lemma OccurrenceFound(s: string, p: string, i: nat)
    requires OccursAt(s, p, i)
    ensures Contains(s, p) && IndexOf(s, p).value <= i
  {
  }

  // ---------------------------------------------------------------------
  // str.replace(p, r): left-to-right, non-overlapping
  // ---------------------------------------------------------------------

  function ReplaceAll(s: string, p: string, r: string): string
    requires |p| > 0
    decreases |s|
  {
    if |s| < |p| then s
    else if s[..|p|] == p then r + ReplaceAll(s[|p|..], p, r)
    else [s[0]] + ReplaceAll(s[1..], p, r)
  }

  /** Text without an occurrence of `p` is left as it is. */
  lemma {:induction false} ReplaceAllAbsent(s: string, p: string, r: string)
    requires |p| > 0 && !Substring(p, s)
    ensures ReplaceAll(s, p, r) == s
    decreases |s|
  {
    if |s| >= |p| {
      assert !OccursAt(s, p, 0);
      assert !Substring(p, s[1..]) by {
        forall i | OccursAt(s[1..], p, i) ensures OccursAt(s, p, i + 1) {
          assert s[1..][i..i + |p|] == s[i + 1..i + 1 + |p|];
        }
      }
      ReplaceAllAbsent(s[1..], p, r);
    }
  }

  /**
   * A prefix `q` of the replaced text that avoids the replacement's first
   * character was already a prefix of the original text.
   */
  lemma {:induction false} ReplaceAllPrefix(t: string, p: string, r: string, q: string)
    requires |p| > 0 && |r| > 0
    ensures var out := ReplaceAll(t, p, r);
      |q| <= |out| && out[..|q|] == q && r[0] !in q ==> |q| <= |t| && t[..|q|] == q
    decreases |t|
  {
    var out := ReplaceAll(t, p, r);
    if |t| >= |p| && |q| > 0 {
      if t[..|p|] == p {
        assert out[0] == r[0];
      } else {
        var rest := ReplaceAll(t[1..], p, r);
        ReplaceAllPrefix(t[1..], p, r, q[1..]);
        if |q| <= |out| {
          assert out[..|q|] == [t[0]] + rest[..|q| - 1];
        }
        if |q| <= |t| {
          assert t[..|q|] == [t[0]] + t[1..][..|q| - 1];
        }
      }
    }
  }

  /**
   * After `str.replace`, the pattern no longer occurs, provided the
   * replacement neither contains it nor can glue onto neighbouring text to
   * form it: its last character does not occur in the pattern and its first
   * character does not occur after the pattern's first position.
   */
  lemma {:induction false} ReplaceAllRemoves(s: string, p: string, r: string)
    requires |p| > 0 && |r| > 0 && !Substring(p, r)
    requires r[|r| - 1] !in p && r[0] !in p[1..]
    ensures !Substring(p, ReplaceAll(s, p, r))
    decreases |s|
  {
    var out := ReplaceAll(s, p, r);
    if |s| >= |p| && s[..|p|] == p {
      var rest := ReplaceAll(s[|p|..], p, r);
      ReplaceAllRemoves(s[|p|..], p, r);
      forall i | 0 <= i && i + |p| <= |out| ensures !OccursAt(out, p, i) {
        if i + |p| <= |r| {
          assert out[i..i + |p|] == r[i..i + |p|];
          assert !OccursAt(r, p, i);
        } else if i < |r| {
          assert out[i..i + |p|][|r| - 1 - i] == r[|r| - 1];
          assert p[|r| - 1 - i] in p;
        } else {
          assert out[i..i + |p|] == rest[i - |r|..i - |r| + |p|];
          assert !OccursAt(rest, p, i - |r|);
        }
      }
    } else if |s| >= |p| {
      var rest := ReplaceAll(s[1..], p, r);
      ReplaceAllRemoves(s[1..], p, r);
      forall i | 0 <= i && i + |p| <= |out| ensures !OccursAt(out, p, i) {
        if i == 0 {
          ReplaceAllPrefix(s[1..], p, r, p[1..]);
          assert out[..|p|] == [s[0]] + rest[..|p| - 1];
          assert s[..|p|] == [s[0]] + s[1..][..|p| - 1];
        } else {
          assert out[i..i + |p|] == rest[i - 1..i - 1 + |p|];
          assert !OccursAt(rest, p, i - 1);
        }
      }
    }
  }

  // ---------------------------------------------------------------------
  // str.split(sep) and its inverse sep.join(...)
  // ---------------------------------------------------------------------

  /** Python's `s.split(sep)` for a non-empty separator. */
  function Split(s: string, sep: string): (pieces: seq<string>)
    requires |sep| > 0
    ensures |pieces| >= 1
    ensures |pieces| > 1 <==> Contains(s, sep)
    ensures forall k :: 0 <= k < |pieces| ==> !Substring(sep, pieces[k])
    ensures |pieces| > 1 ==> IndexOf(s, sep) == Some(|pieces[0]|)
    decreases |s|
  {
    match IndexOf(s, sep)
    case None =>
      ContainsIsSubstring(s, sep);
      [s]
    case Some(i) =>
      var head := s[..i];
      assert !Substring(sep, head) by {
        forall j | OccursAt(head, sep, j) ensures OccursAt(s, sep, j) {
          assert head[j..j + |sep|] == s[j..j + |sep|];
        }
      }
      [head] + Split(s[i + |sep|..], sep)
  }

  /** Python's `sep.join(pieces)`. */
  function Join(pieces: seq<string>, sep: string): string
    requires |pieces| >= 1
  {
    if |pieces| == 1 then pieces[0] else pieces[0] + sep + Join(pieces[1..], sep)
  }

  /** `sep.join(s.split(sep)) == s`. */
  lemma {:induction false} JoinSplit(s: string, sep: string)
    requires |sep| > 0
    ensures Join(Split(s, sep), sep) == s
    decreases |s|
  {
    match IndexOf(s, sep)
    case None =>
    case Some(i) =>
      var tail := s[i + |sep|..];
      JoinSplit(tail, sep);
      assert Split(s, sep)[1..] == Split(tail, sep);
      assert s == s[..i] + sep + tail;
  }

  /** Text before the first occurrence of `p` is copied as it is. */
  lemma {:induction false} ReplaceAllSkip(s: string, p: string, r: string, i: nat)
    requires |p| > 0 && i <= |s| && forall j :: 0 <= j < i ==> !OccursAt(s, p, j)
    ensures ReplaceAll(s, p, r) == s[..i] + ReplaceAll(s[i..], p, r)
    decreases i
  {
    if i > 0 && |s| >= |p| {
      assert !OccursAt(s, p, 0);
      forall j | 0 <= j < i - 1 ensures !OccursAt(s[1..], p, j) {
        assert !OccursAt(s, p, j + 1);
        if j + |p| <= |s| - 1 {
          assert s[1..][j..j + |p|] == s[j + 1..j + 1 + |p|];
        }
      }
      ReplaceAllSkip(s[1..], p, r, i - 1);
      assert s[1..][i - 1..] == s[i..];
      assert s[..i] == [s[0]] + s[1..][..i - 1];
    } else if i > 0 {
      ReplaceAllAbsent(s[i..], p, r);
    }
  }

  /**
   * Text holding `p` once, between two parts that cannot start an
   * occurrence of it, has that one occurrence replaced and the rest kept.
   */
  lemma ReplaceAllSingle(head: string, p: string, r: string, tail: string)
    requires |p| > 0 && p[0] !in head && p[0] !in tail
    ensures ReplaceAll(head + p + tail, p, r) == head + r + tail
  {
    var s := head + p + tail;
    forall j | 0 <= j < |head| ensures !OccursAt(s, p, j) {
      assert s[j] == head[j] != p[0];
    }
    ReplaceAllSkip(s, p, r, |head|);
    assert s[|head|..][..|p|] == p && s[|head|..][|p|..] == tail;
    assert !Substring(p, tail) by {
      forall j | 0 <= j && j + |p| <= |tail| ensures !OccursAt(tail, p, j) {
        assert tail[j] != p[0];
        assert tail[j..j + |p|][0] == tail[j];
      }
    }
    ReplaceAllAbsent(tail, p, r);
  }

  /**
   * `s.replace(p, r) == r.join(s.split(p))`: every occurrence the split cuts
   * out is replaced by `r`, and the text between occurrences is kept.
   */
  lemma {:induction false} ReplaceAllIsJoinSplit(s: string, p: string, r: string)
    requires |p| > 0
    ensures ReplaceAll(s, p, r) == Join(Split(s, p), r)
    decreases |s|
  {
    match IndexOf(s, p)
    case None =>
      ReplaceAllAbsent(s, p, r);
    case Some(i) =>
      var tail := s[i + |p|..];
      assert Split(s, p) == [s[..i]] + Split(tail, p);
      ReplaceAllSkip(s, p, r, i);
      assert s[i..][..|p|] == p && s[i..][|p|..] == tail;
      assert ReplaceAll(s[i..], p, r) == r + ReplaceAll(tail, p, r);
      ReplaceAllIsJoinSplit(tail, p, r);
  }

  // ---------------------------------------------------------------------
  // str.strip()
  // ---------------------------------------------------------------------

  /** Python's `str.isspace` for a single character. */
  predicate IsSpace(c: char) {
    ('\t' <= c <= '\r') || ('\U{1C}' <= c <= '\U{1F}') || c == ' ' || c == '\U{85}' || c == '\U{A0}'
    || c == '\U{1680}' || ('\U{2000}' <= c <= '\U{200A}') || c == '\U{2028}' || c == '\U{2029}'
    || c == '\U{202F}' || c == '\U{205F}' || c == '\U{3000}'
  }

  ghost predicate Blank(s: string) {
    forall k :: 0 <= k < |s| ==> IsSpace(s[k])
  }

  /** Drops leading whitespace: what remains is a suffix starting with a non-space. */
  function LStrip(s: string): (r: string)
    ensures |r| <= |s| && r == s[|s| - |r|..]
    ensures forall k :: 0 <= k < |s| - |r| ==> IsSpace(s[k])
    ensures |r| > 0 ==> !IsSpace(r[0])
  {
    if |s| > 0 && IsSpace(s[0]) then LStrip(s[1..]) else s
  }

  /** Drops trailing whitespace: what remains is a prefix ending with a non-space. */
  function RStrip(s: string): (r: string)
    ensures |r| <= |s| && r == s[..|r|]
    ensures forall k :: |r| <= k < |s| ==> IsSpace(s[k])
    ensures |r| > 0 ==> !IsSpace(r[|r| - 1])
  {
    if |s| > 0 && IsSpace(s[|s| - 1]) then RStrip(s[..|s| - 1]) else s
  }

  /** Python's `s.strip()` with no argument. */
  function Strip(s: string): string {
    RStrip(LStrip(s))
  }

  /** `len(s.strip()) > 0` exactly when `s` holds a non-whitespace character. */
  lemma StripEmptyIffBlank(s: string)
    ensures |Strip(s)| == 0 <==> Blank(s)
  {
    var l := LStrip(s);
    var r := RStrip(l);
    if |r| == 0 {
      assert |l| == 0;
    } else {
      assert !IsSpace(r[0]) && r[0] == l[0];
      assert l[0] == s[|s| - |l|];
    }
  }

  // ---------------------------------------------------------------------
  // str(int)
  // ---------------------------------------------------------------------

  function DigitChar(d: nat): char
    requires d < 10
  {
    "0123456789"[d]
  }

  function NatToString(n: nat): (r: string)
    ensures |r| > 0
    ensures forall k :: 0 <= k < |r| ==> '0' <= r[k] <= '9'
    decreases n
  {
    if n < 10 then [DigitChar(n)] else NatToString(n / 10) + [DigitChar(n % 10)]
  }

  /** The number a string of decimal digits denotes. */
  ghost function DigitsValue(r: string): int {
    if |r| == 0 then 0 else 10 * DigitsValue(r[..|r| - 1]) + (r[|r| - 1] as int - '0' as int)
  }

  lemma DigitCharValue(d: nat)
    requires d < 10
    ensures DigitChar(d) as int - '0' as int == d
  {
    assert "0123456789"[d] as int == '0' as int + d by {
      if d == 0 {} else if d == 1 {} else if d == 2 {} else if d == 3 {} else if d == 4 {}
      else if d == 5 {} else if d == 6 {} else if d == 7 {} else if d == 8 {}
    }
  }

  /** `str(n)` reads back as `n` and has no leading zero. */
  lemma {:induction false} NatToStringValue(n: nat)
    ensures DigitsValue(NatToString(n)) == n
    ensures |NatToString(n)| > 1 ==> NatToString(n)[0] != '0'
    decreases n
  {
    var r := NatToString(n);
    if n < 10 {
      DigitCharValue(n);
      assert r[..0] == [];
    } else {
      var init := NatToString(n / 10);
      NatToStringValue(n / 10);
      DigitCharValue(n % 10);
      assert r[..|r| - 1] == init;
      if |init| == 1 {
        assert init[0] != '0' by {
          DigitCharValue(n / 10);
          assert init[..0] == [];
        }
      }
    }
  }

  /** Python's `str(n)` for an integer. */
  function IntToString(n: int): string {
    if n < 0 then "-" + NatToString(-n) else NatToString(n)
  }
}
