/**
 * The Python `str` operations the collectors rely on, over `seq<char>`:
 * splitting on a separator, `strip`, whitespace `split()`, slicing to a
 * column width, ASCII `upper`/`title`, `replace(pat, "")` and the decimal
 * rendering of integers.
 */
module Text {

  datatype Option<T> = None | Some(value: T)

  /** Python's `str.isspace` for one character (what `strip()` and `split()` treat as whitespace). */
  predicate IsSpace(c: char) {
    || c == ' '
    || ('\t' <= c <= '\r')
    || ('\U{1C}' <= c <= '\U{1F}')
    || c == '\U{85}' || c == '\U{A0}' || c == '\U{1680}'
    || ('\U{2000}' <= c <= '\U{200A}')
    || c == '\U{2028}' || c == '\U{2029}' || c == '\U{202F}' || c == '\U{205F}' || c == '\U{3000}'
  }

  /** `p` occurs in `s` starting at index `i`. */
  predicate OccursAt(s: string, p: string, i: nat) {
    i + |p| <= |s| && s[i..i + |p|] == p
  }

  /** First index at or after `k` where `p` occurs in `s` (Python's `s.find(p, k)`). */
  function FindFrom(s: string, p: string, k: nat): (r: Option<nat>)
    requires |p| > 0
    ensures r.Some? ==> k <= r.value && OccursAt(s, p, r.value)
    ensures r.Some? ==> forall j :: k <= j < r.value ==> !OccursAt(s, p, j)
    ensures r.None? ==> forall j :: k <= j ==> !OccursAt(s, p, j)
    decreases |s| - k
  {
    if k + |p| > |s| then None
    else if OccursAt(s, p, k) then Some(k)
    else FindFrom(s, p, k + 1)
  }

  /** `p in s` for a non-empty `p`. */
  predicate Contains(s: string, p: string)
    requires |p| > 0
  {
    FindFrom(s, p, 0).Some?
  }

  /** Python's `s.split(sep)` for a non-empty separator. */
  function SplitOn(s: string, sep: string): (parts: seq<string>)
    requires |sep| > 0
    ensures |parts| >= 1
    decreases |s|
  {
    match FindFrom(s, sep, 0)
    case None => [s]
    case Some(i) => [s[..i]] + SplitOn(s[i + |sep|..], sep)
  }

  /** Python's `sep.join(parts)`. */
  function Join(parts: seq<string>, sep: string): string
  {
    if |parts| == 0 then ""
    else if |parts| == 1 then parts[0]
    else parts[0] + sep + Join(parts[1..], sep)
  }

  /** Splitting and joining again with the same separator gives back the string. */
  lemma {:induction false} JoinSplit(s: string, sep: string)
    requires |sep| > 0
    ensures Join(SplitOn(s, sep), sep) == s
    decreases |s|
  {
    var found := FindFrom(s, sep, 0);
    if found.Some? {
      var i := found.value;
      var rest := s[i + |sep|..];
      JoinSplit(rest, sep);
      JoinAroundSeparator(s, sep, i, SplitOn(rest, sep));
    }
  }

  /** One step of `JoinSplit`: the piece before the first separator, the separator, and the rest. */
  lemma JoinAroundSeparator(s: string, sep: string, i: nat, parts: seq<string>)
    requires |sep| > 0 && FindFrom(s, sep, 0) == Some(i)
    requires parts == SplitOn(s[i + |sep|..], sep) && Join(parts, sep) == s[i + |sep|..]
    ensures Join(SplitOn(s, sep), sep) == s
  {
    var head := s[..i];
    var rest := s[i + |sep|..];
    assert SplitOn(s, sep) == [head] + parts;
    assert ([head] + parts)[1..] == parts;
    assert Join([head] + parts, sep) == head + sep + rest;
    assert s[i..i + |sep|] == sep;
    assert s == head + s[i..i + |sep|] + rest;
  }

  /** Python's `s.split(c)[-1]`: the text after the last `c`. */
  function LastSegment(s: string, c: char): string
  {
    var parts := SplitOn(s, [c]);
    parts[|parts| - 1]
  }

  /**
   * The last segment holds no separator and ends the string, and it is the
   * longest such suffix: it is the whole string or a separator precedes it.
   */
  lemma {:induction false} LastSegmentIsSuffix(s: string, c: char)
    ensures c !in LastSegment(s, c)
    ensures |LastSegment(s, c)| <= |s| && LastSegment(s, c) == s[|s| - |LastSegment(s, c)|..]
    ensures |LastSegment(s, c)| == |s| || s[|s| - |LastSegment(s, c)| - 1] == c
    decreases |s|
  {
    match FindFrom(s, [c], 0)
    case None =>
      forall j | 0 <= j < |s| ensures s[j] != c {
        assert !OccursAt(s, [c], j);
        assert s[j..j + 1] == [s[j]];
      }
    case Some(i) =>
      var rest := s[i + 1..];
      LastSegmentIsSuffix(rest, c);
      LastSegmentStep(s, c, i);
      var t := LastSegment(rest, c);
      assert s[i..i + 1] == [c];
      assert rest[|rest| - |t|..] == s[|s| - |t|..];
      if |t| < |rest| {
        assert s[|s| - |t| - 1] == rest[|rest| - |t| - 1];
      } else {
        assert s[|s| - |t| - 1] == s[i];
      }
  }

  /** Past the first separator, the last segment is that of the rest. */
  lemma LastSegmentStep(s: string, c: char, i: nat)
    requires FindFrom(s, [c], 0) == Some(i)
    ensures LastSegment(s, c) == LastSegment(s[i + 1..], c)
  {
    var sep := [c];
    var rest := SplitOn(s[i + |sep|..], sep);
    assert SplitOn(s, sep) == [s[..i]] + rest;
    assert SplitOn(s, sep)[|rest|] == rest[|rest| - 1];
  }

  /** Python's `s[:n]`. */
  function Prefix(s: string, n: nat): (r: string)
    ensures |r| <= n && |r| <= |s|
    ensures r == s[..|r|]
    ensures |s| <= n ==> r == s
    ensures |s| > n ==> |r| == n
  {
    if |s| <= n then s else s[..n]
  }

  /** The index of the first non-blank at or after `i`, or `|s|`. */
  function BlankRunEnd(s: string, i: nat): (k: nat)
    requires i <= |s|
    ensures i <= k <= |s| && (k < |s| ==> !IsSpace(s[k]))
    ensures forall j :: i <= j < k ==> IsSpace(s[j])
    decreases |s| - i
  {
    if i < |s| && IsSpace(s[i]) then BlankRunEnd(s, i + 1) else i
  }

  /** The index just past the last non-blank before `j`, or 0. */
  function BlankRunStart(s: string, j: nat): (k: nat)
    requires j <= |s|
    ensures k <= j && (k > 0 ==> !IsSpace(s[k - 1]))
    ensures forall i :: k <= i < j ==> IsSpace(s[i])
  {
    if j > 0 && IsSpace(s[j - 1]) then BlankRunStart(s, j - 1) else j
  }

  function TrimStart(s: string): (r: string)
    ensures |r| <= |s| && r == s[|s| - |r|..]
    ensures r != [] ==> !IsSpace(r[0])
    ensures forall i :: 0 <= i < |s| - |r| ==> IsSpace(s[i])
  {
    s[BlankRunEnd(s, 0)..]
  }

  function TrimEnd(s: string): (r: string)
    ensures |r| <= |s| && r == s[..|r|]
    ensures r != [] ==> !IsSpace(r[|r| - 1])
    ensures forall i :: |r| <= i < |s| ==> IsSpace(s[i])
  {
    s[..BlankRunStart(s, |s|)]
  }

  /**
   * Python's `s.strip()`: the piece of `s` left once the blanks before `lead`
   * and from `lead + |r|` on are dropped, starting and ending with a non-blank.
   */
  function Strip(s: string): (r: string)
    ensures r != [] ==> !IsSpace(r[0]) && !IsSpace(r[|r| - 1])
    ensures (forall i :: 0 <= i < |s| ==> !IsSpace(s[i])) ==> r == s
  {
    var t := TrimStart(s);
    var r := TrimEnd(t);
    TrimBothEnds(s, t, r);
    r
  }

  /**
   * `s.strip()` is the slice of `s` from `lead` on that leaves only blanks
   * before it and only blanks after it.
   */
  lemma StripSlice(s: string) returns (lead: nat)
    ensures lead + |Strip(s)| <= |s| && Strip(s) == s[lead..lead + |Strip(s)|]
    ensures forall i :: 0 <= i < lead ==> IsSpace(s[i])
    ensures forall i :: lead + |Strip(s)| <= i < |s| ==> IsSpace(s[i])
  {
    var t := TrimStart(s);
    var r := TrimEnd(t);
    assert Strip(s) == r;
    TrimBothEnds(s, t, r);
    lead := |s| - |t|;
  }

  /**
   * Dropping the blanks that open `s` (giving `t`) and then those that close
   * `t` (giving `r`) leaves a slice of `s` with blanks only on either side of
   * it and, when `s` has none, all of `s`.
   */
  lemma TrimBothEnds(s: string, t: string, r: string)
    requires |t| <= |s| && t == s[|s| - |t|..] && (t != [] ==> !IsSpace(t[0]))
    requires forall i :: 0 <= i < |s| - |t| ==> IsSpace(s[i])
    requires |r| <= |t| && r == t[..|r|] && (r != [] ==> !IsSpace(r[|r| - 1]))
    requires forall i :: |r| <= i < |t| ==> IsSpace(t[i])
    ensures var lead := |s| - |t|;
            lead + |r| <= |s| && r == s[lead..lead + |r|] &&
            (forall i :: 0 <= i < lead ==> IsSpace(s[i])) &&
            (forall i :: lead + |r| <= i < |s| ==> IsSpace(s[i]))
    ensures r != [] ==> !IsSpace(r[0]) && !IsSpace(r[|r| - 1])
    ensures (forall i :: 0 <= i < |s| ==> !IsSpace(s[i])) ==> r == s
  {
    var lead := |s| - |t|;
    assert forall i :: lead <= i < |s| ==> s[i] == t[i - lead];
    if forall i :: 0 <= i < |s| ==> !IsSpace(s[i]) {
      assert s != [] ==> !IsSpace(s[0]);
      assert t != [] ==> t[|t| - 1] == s[|s| - 1];
    }
  }

  /**
   * `s.split()[0]` if `s` has a non-whitespace character; `None` where Python
   * raises IndexError. The token is the start of `s` once its leading blanks
   * are dropped, running up to the next blank or the end.
   */
  function FirstToken(s: string): (r: Option<string>)
    ensures r.None? <==> forall i :: 0 <= i < |s| ==> IsSpace(s[i])
    ensures r.Some? ==> r.value != [] && forall i :: 0 <= i < |r.value| ==> !IsSpace(r.value[i])
    ensures r.Some? ==> var t := TrimStart(s);
            |r.value| <= |t| && r.value == t[..|r.value|] && (|r.value| < |t| ==> IsSpace(t[|r.value|]))
  {
    var t := TrimStart(s);
    if t == [] then None else Some(TakeWord(t))
  }

  /** The longest prefix of `s` without whitespace. */
  function TakeWord(s: string): (r: string)
    ensures |r| <= |s| && r == s[..|r|]
    ensures forall i :: 0 <= i < |r| ==> !IsSpace(r[i])
    ensures |r| < |s| ==> IsSpace(s[|r|])
  {
    if s == [] || IsSpace(s[0]) then [] else [s[0]] + TakeWord(s[1..])
  }

  /** ASCII case mapping; other characters are left as they are. */
  function UpperChar(c: char): char {
    if 'a' <= c <= 'z' then (c as int - 32) as char else c
  }

  function LowerChar(c: char): char {
    if 'A' <= c <= 'Z' then (c as int + 32) as char else c
  }

  predicate IsCased(c: char) {
    ('a' <= c <= 'z') || ('A' <= c <= 'Z')
  }

  /** Python's `s.upper()` on ASCII letters. */
  function Upper(s: string): (r: string)
    ensures |r| == |s| && forall i :: 0 <= i < |s| ==> r[i] == UpperChar(s[i])
  {
    seq(|s|, i requires 0 <= i < |s| => UpperChar(s[i]))
  }

  /**
   * Upper-casing leaves no lower-case ASCII letter, keeps every other
   * character, and a second pass changes nothing: comparing upper-cased texts
   * ignores ASCII case.
   */
  lemma UpperNormalises(s: string)
    ensures forall i :: 0 <= i < |s| ==> !('a' <= Upper(s)[i] <= 'z')
    ensures forall i :: 0 <= i < |s| && !('a' <= s[i] <= 'z') ==> Upper(s)[i] == s[i]
    ensures Upper(Upper(s)) == Upper(s)
  {
  }

  /**
   * Python's `s.title()` on ASCII letters: a cased character is upper-cased when
   * the character before it is not cased, lower-cased otherwise.
   */
  function Title(s: string): (r: string)
    ensures |r| == |s|
  {
    seq(|s|, i requires 0 <= i < |s| => TitleChar(if i == 0 then ' ' else s[i - 1], s[i]))
  }

  /** One character of `title()`, given the character before it. */
  function TitleChar(before: char, c: char): char {
    if IsCased(before) then LowerChar(c) else UpperChar(c)
  }

  /** Python's `s.replace(p, "")`: every non-overlapping occurrence of `p`, from the left, removed. */
  function RemoveAll(s: string, p: string): string
    requires |p| > 0
    decreases |s|
  {
    if |s| < |p| then s
    else if s[..|p|] == p then RemoveAll(s[|p|..], p)
    else [s[0]] + RemoveAll(s[1..], p)
  }

  /** Removing `p` from `w + p` gives `w` back when `w` never holds the first character of `p`. */
  lemma {:induction false} RemoveAllTrailing(w: string, p: string)
    requires |p| > 0 && forall i :: 0 <= i < |w| ==> w[i] != p[0]
    ensures RemoveAll(w + p, p) == w
    decreases |w|
  {
    if w == [] {
      assert w + p == p;
      assert p[|p|..] == [];
    } else {
      assert (w + p)[..|p|][0] == w[0];
      assert (w + p)[1..] == w[1..] + p;
      RemoveAllTrailing(w[1..], p);
      assert w == [w[0]] + w[1..];
    }
  }

  function DigitChar(d: nat): char
    requires d < 10
  {
    "0123456789"[d]
  }

  /** Decimal rendering of a natural number, most significant digit first. */
  function NatToString(n: nat): (r: string)
    ensures |r| >= 1
    ensures forall i :: 0 <= i < |r| ==> '0' <= r[i] <= '9'
    decreases n
  {
    if n < 10 then [DigitChar(n)] else NatToString(n / 10) + [DigitChar(n % 10)]
  }

  /** The number a string of decimal digits denotes, most significant digit first. */
  function DecimalValue(r: string): nat
    requires forall i :: 0 <= i < |r| ==> '0' <= r[i] <= '9'
  {
    if r == [] then 0 else 10 * DecimalValue(r[..|r| - 1]) + (r[|r| - 1] as int - '0' as int)
  }

  /** `NatToString(n)` denotes `n` and has no leading zero. */
  lemma {:induction false} NatToStringValue(n: nat)
    ensures DecimalValue(NatToString(n)) == n
    ensures NatToString(n)[0] == '0' ==> n == 0
    decreases n
  {
    if n >= 10 {
      NatToStringValue(n / 10);
      var r := NatToString(n);
      assert r[..|r| - 1] == NatToString(n / 10);
      assert r[0] == NatToString(n / 10)[0];
    }
  }

  /** Python's `str(i)` for an integer. */
  function IntToString(i: int): string
  {
    if i < 0 then "-" + NatToString(-i) else NatToString(i)
  }

  /**
   * The first piece of a split is the text before the first separator; the
   * second runs from that separator to the next one or to the end.
   */
  lemma SplitHead(s: string, sep: string, i: nat)
    requires |sep| > 0 && FindFrom(s, sep, 0) == Some(i)
    ensures |SplitOn(s, sep)| >= 2 && SplitOn(s, sep)[0] == s[..i]
    ensures var next := SplitOn(s, sep)[1];
            |next| <= |s| - i - |sep| && next == s[i + |sep|..][..|next|]
    ensures var next := SplitOn(s, sep)[1];
            var rest := s[i + |sep|..];
            (|next| == |rest| || OccursAt(rest, sep, |next|)) &&
            forall j :: 0 <= j < |next| ==> !OccursAt(rest, sep, j)
  {
    var rest := s[i + |sep|..];
    assert SplitOn(s, sep) == [s[..i]] + SplitOn(rest, sep);
    match FindFrom(rest, sep, 0)
    case None =>
    case Some(j) =>
      assert SplitOn(rest, sep) == [rest[..j]] + SplitOn(rest[j + |sep|..], sep);
  }

  /** Trimming a prefix that still holds a non-blank character gives a prefix of the trimmed whole. */
  lemma TrimStartPrefix(next: string, after: string)
    requires |next| <= |after| && next == after[..|next|] && TrimStart(next) != []
    ensures |TrimStart(next)| <= |TrimStart(after)| && TrimStart(next) == TrimStart(after)[..|TrimStart(next)|]
    ensures |after| - |TrimStart(after)| == |next| - |TrimStart(next)|
  {
    var r1 := TrimStart(next);
    var r2 := TrimStart(after);
    var lead := |next| - |r1|;
    var m := |after| - |r2|;
    assert r1[0] == next[lead];
    assert r2 != [] ==> r2[0] == after[m];
    assert forall k :: 0 <= k <= lead ==> next[k] == after[k];
    SameLead(after, m, lead);
    SliceOfPrefix(next, after, lead);
  }

  /**
   * `t` is the first word of `after` when words also end at `sep`: past the
   * `lead` blanks that open `after`, a non-empty run of non-blank characters
   * that stops at a blank, at an occurrence of `sep` or at the end.
   */
  predicate FirstWordUpTo(after: string, lead: nat, t: string, sep: string) {
    lead + |t| <= |after| && (forall k :: 0 <= k < lead ==> IsSpace(after[k])) &&
    t != [] && (forall k :: 0 <= k < |t| ==> !IsSpace(t[k])) && t == after[lead..lead + |t|] &&
    (lead + |t| == |after| || IsSpace(after[lead + |t|]) || OccursAt(after, sep, lead + |t|))
  }

  /**
   * The first word of a piece that begins `after` and ends at its end or at
   * `sep` is the first word of `after` up to a blank, `sep` or the end.
   */
  lemma WordOfPrefix(next: string, after: string, sep: string)
    requires |next| <= |after| && next == after[..|next|] && FirstToken(next).Some?
    requires |next| == |after| || OccursAt(after, sep, |next|)
    ensures FirstWordUpTo(after, |after| - |TrimStart(after)|, FirstToken(next).value, sep)
  {
    var t := FirstToken(next).value;
    var lead := TokenInPrefix(next, after, t);
    var stops := lead + |t| == |after| || IsSpace(after[lead + |t|]) || OccursAt(after, sep, lead + |t|);
    assert stops by {
      if lead + |t| == |next| {
        assert |next| == |after| || OccursAt(after, sep, |next|);
      }
    }
    WordFacts(after, lead, t, sep);
  }

  lemma WordFacts(after: string, lead: nat, t: string, sep: string)
    requires lead + |t| <= |after| && (forall k :: 0 <= k < lead ==> IsSpace(after[k]))
    requires t != [] && forall k :: 0 <= k < |t| ==> !IsSpace(t[k])
    requires t == after[lead..lead + |t|]
    requires lead + |t| == |after| || IsSpace(after[lead + |t|]) || OccursAt(after, sep, lead + |t|)
    ensures FirstWordUpTo(after, lead, t, sep)
  {
  }

  /**
   * The first word `t` of a prefix `next` of `after` sits in `after` right
   * after its leading blanks, and is followed there by a blank unless it
   * reaches the end of `next`.
   */
  lemma TokenInPrefix(next: string, after: string, t: string) returns (lead: nat)
    requires |next| <= |after| && next == after[..|next|] && FirstToken(next) == Some(t)
    ensures lead == |after| - |TrimStart(after)| && lead + |t| <= |next|
    ensures forall k :: 0 <= k < lead ==> IsSpace(after[k])
    ensures t == after[lead..lead + |t|]
    ensures lead + |t| < |next| ==> IsSpace(after[lead + |t|])
  {
    var tn := TrimStart(next);
    TrimStartPrefix(next, after);
    lead := |next| - |tn|;
    SliceOfSlice(next, after, tn, t, lead);
    if lead + |t| < |next| {
      assert IsSpace(tn[|t|]);
    }
  }

  /** A piece `t` that starts the tail of `next` from `lead` on is the same piece of `after`. */
  lemma SliceOfSlice(next: string, after: string, tn: string, t: string, lead: nat)
    requires |next| <= |after| && next == after[..|next|]
    requires lead + |tn| == |next| && tn == next[lead..]
    requires |t| <= |tn| && t == tn[..|t|]
    ensures t == after[lead..lead + |t|]
    ensures |t| < |tn| ==> tn[|t|] == after[lead + |t|]
  {
    assert forall x :: 0 <= x < |tn| ==> tn[x] == after[lead + x];
  }

  /** Two counts of leading blanks of one string agree. */
  lemma SameLead(s: string, m: nat, lead: nat)
    requires m <= |s| && lead < |s|
    requires forall k :: 0 <= k < m ==> IsSpace(s[k])
    requires m < |s| ==> !IsSpace(s[m])
    requires forall k :: 0 <= k < lead ==> IsSpace(s[k])
    requires !IsSpace(s[lead])
    ensures m == lead
  {
  }

  lemma SliceOfPrefix(next: string, after: string, lead: nat)
    requires |next| <= |after| && next == after[..|next|] && lead <= |next|
    ensures next[lead..] == after[lead..][..|next| - lead]
  {
    assert forall k :: 0 <= k < |next| - lead ==> next[lead..][k] == after[lead + k];
  }
}
