/** The parts of Go's `strings` package that the registration code relies on,
    over strings of Unicode scalar values. */
module GoStrings {
  import opened Results

  /** `unicode.IsSpace`, the predicate `strings.TrimSpace` trims by. */
  predicate IsSpace(c: char) {
    || c == ' '
    || ('\t' <= c <= '\r')
    || c == '\U{85}' || c == '\U{A0}' || c == '\U{1680}'
    || ('\U{2000}' <= c <= '\U{200A}')
    || c == '\U{2028}' || c == '\U{2029}' || c == '\U{202F}'
    || c == '\U{205F}' || c == '\U{3000}'
  }

  predicate AllSpace(s: string) {
    forall i :: 0 <= i < |s| ==> IsSpace(s[i])
  }

  /** Neither end of `s` is white space. */
  predicate Trimmed(s: string) {
    s == [] || (!IsSpace(s[0]) && !IsSpace(s[|s| - 1]))
  }

  function TrimLeft(s: string): (r: string)
    ensures |r| <= |s| && r == s[|s| - |r|..]
    ensures r == [] || !IsSpace(r[0])
    decreases |s|
  {
    if |s| > 0 && IsSpace(s[0]) then TrimLeft(s[1..]) else s
  }

  function TrimRight(s: string): (r: string)
    ensures |r| <= |s| && r == s[..|r|]
    ensures r == [] || !IsSpace(r[|r| - 1])
    decreases |s|
  {
    if |s| > 0 && IsSpace(s[|s| - 1]) then TrimRight(s[..|s| - 1]) else s
  }

  /** What `TrimLeft` drops is white space. */
  lemma {:induction false} TrimLeftSpaces(s: string)
    ensures AllSpace(s[..|s| - |TrimLeft(s)|])
    decreases |s|
  {
    if |s| > 0 && IsSpace(s[0]) {
      TrimLeftSpaces(s[1..]);
      var k := |s| - |TrimLeft(s)|;
      forall i | 0 <= i < k ensures IsSpace(s[i]) {
        if i > 0 {
          assert s[i] == s[1..][..k - 1][i - 1];
        }
      }
    }
  }

  /** `TrimLeft` stops inside `a` when `b` starts with a non-space. */
  lemma {:induction false} TrimLeftAppend(a: string, b: string)
    requires b != [] && !IsSpace(b[0])
    ensures TrimLeft(a + b) == TrimLeft(a) + b
    decreases |a|
  {
    if |a| > 0 {
      assert (a + b)[0] == a[0];
      if IsSpace(a[0]) {
        assert (a + b)[1..] == a[1..] + b;
        TrimLeftAppend(a[1..], b);
      }
    } else {
      assert a + b == b;
    }
  }

  /** Trimming a string that a non-space suffix closes only cuts its front. */
  lemma TrimSpaceBeforeSuffix(a: string, b: string)
    requires b != [] && !IsSpace(b[0]) && !IsSpace(b[|b| - 1])
    ensures TrimSpace(a + b) == TrimLeft(a) + b
  {
    TrimLeftAppend(a, b);
    var l := TrimLeft(a) + b;
    assert l[|l| - 1] == b[|b| - 1];
  }

  /** Lower-casing leaves an already lower-case tail alone. */
  lemma LowerBeforeLowered(a: string, b: string)
    requires Lowered(b)
    ensures ToLower(a + b) == ToLower(a) + b
  {
    LoweredIsFixed(b);
    assert forall i :: |a| <= i < |a + b| ==> (a + b)[i] == b[i - |a|];
  }

  /** What `TrimRight` drops is white space. */
  lemma {:induction false} TrimRightSpaces(s: string)
    ensures AllSpace(s[|TrimRight(s)|..])
    decreases |s|
  {
    if |s| > 0 && IsSpace(s[|s| - 1]) {
      TrimRightSpaces(s[..|s| - 1]);
      var k := |TrimRight(s)|;
      forall i | k <= i < |s| ensures IsSpace(s[i]) {
        if i < |s| - 1 {
          assert s[i] == s[..|s| - 1][k..][i - k];
        }
      }
    }
  }

  /** `r` is `s` with some white space cut from each end. */
  predicate StripsTo(s: string, r: string) {
    exists i, j :: 0 <= i <= j <= |s| && r == s[i..j] && AllSpace(s[..i]) && AllSpace(s[j..])
  }

  /** `strings.TrimSpace`: drops leading and trailing white space. */
  function TrimSpace(s: string): (r: string)
    ensures Trimmed(r)
    ensures Trimmed(s) ==> r == s
    ensures r == [] <==> AllSpace(s)
    ensures forall c :: c in r ==> c in s
  {
    var l := TrimLeft(s);
    var r := TrimRight(l);
    assert r == [] ==> AllSpace(s) by {
      if r == [] {
        TrimLeftSpaces(s);
        TrimRightSpaces(l);
        assert l == [];
      }
    }
    r
  }

  /** A white-space prefix stops at or before the first other character. */
  lemma SpacePrefixBefore(s: string, i: nat, k: nat)
    requires i <= |s| && AllSpace(s[..i])
    requires k < |s| && !IsSpace(s[k])
    ensures i <= k
  {
  }

  /** A white-space suffix starts after the last other character. */
  lemma SpaceSuffixAfter(s: string, j: nat, k: nat)
    requires j <= |s| && AllSpace(s[j..])
    requires k < |s| && !IsSpace(s[k])
    ensures k < j
  {
  }

  /** Where the pieces of `a`, a separator and `b` sit in their
      concatenation. */
  lemma JoinedAround(a: string, sep: char, b: string)
    ensures var x := a + [sep] + b;
      && |x| == |a| + 1 + |b|
      && x[..|a|] == a && x[|a|] == sep && x[|a| + 1..] == b
  {
    var x := a + [sep] + b;
    assert x[|a| + 1..] == b;
  }

  /** `TrimSpace` cuts only white space, and only from the ends; with
      `TrimSpaceUnique` this determines it. */
  lemma TrimSpaceStrips(s: string)
    ensures StripsTo(s, TrimSpace(s))
  {
    var l := TrimLeft(s);
    TrimLeftSpaces(s);
    TrimRightSpaces(l);
    CutsStrip(s, l, TrimRight(l));
  }

  /** Cutting a white-space prefix and then a white-space suffix strips. */
  lemma CutsStrip(s: string, l: string, r: string)
    requires |l| <= |s| && l == s[|s| - |l|..] && AllSpace(s[..|s| - |l|])
    requires |r| <= |l| && r == l[..|r|] && AllSpace(l[|r|..])
    ensures StripsTo(s, r)
  {
    var i := |s| - |l|;
    assert s[i..][|r|..] == s[i + |r|..];
    assert s[i..i + |r|] == r;
  }

  /** Two ways of cutting white space from the ends of `s` that both leave
      non-space characters at the ends leave the same string. */
  lemma StripsAgree(s: string, r: string, t: string)
    requires StripsTo(s, r) && Trimmed(r) && r != []
    requires StripsTo(s, t) && Trimmed(t) && t != []
    ensures r == t
  {
    var i, j :| 0 <= i <= j <= |s| && r == s[i..j] && AllSpace(s[..i]) && AllSpace(s[j..]);
    var i', j' :| 0 <= i' <= j' <= |s| && t == s[i'..j'] && AllSpace(s[..i']) && AllSpace(s[j'..]);
    CutEnds(s, r, i, j);
    CutEnds(s, t, i', j');
    CutsAgree(s, i, j, i', j');
  }

  /** The ends of a non-empty trimmed slice are not white space. */
  lemma CutEnds(s: string, r: string, i: nat, j: nat)
    requires i <= j <= |s| && r == s[i..j] && r != [] && Trimmed(r)
    ensures i < j && !IsSpace(s[i]) && !IsSpace(s[j - 1])
  {
    assert s[i] == r[0] && s[j - 1] == r[|r| - 1];
  }

  /** The index arithmetic behind `StripsAgree`. */
  lemma CutsAgree(s: string, i: nat, j: nat, i': nat, j': nat)
    requires i < j <= |s| && i' < j' <= |s|
    requires AllSpace(s[..i]) && AllSpace(s[j..]) && AllSpace(s[..i']) && AllSpace(s[j'..])
    requires !IsSpace(s[i]) && !IsSpace(s[i']) && !IsSpace(s[j - 1]) && !IsSpace(s[j' - 1])
    ensures i == i' && j == j'
  {
    SpacePrefixBefore(s, i, i');
    SpacePrefixBefore(s, i', i);
    SpaceSuffixAfter(s, j, j' - 1);
    SpaceSuffixAfter(s, j', j - 1);
  }

  /** Cutting only white space leaves nothing exactly when `s` is blank. */
  lemma StripsToEmpty(s: string, r: string)
    requires StripsTo(s, r) && Trimmed(r)
    ensures r == [] <==> AllSpace(s)
  {
    var i, j :| 0 <= i <= j <= |s| && r == s[i..j] && AllSpace(s[..i]) && AllSpace(s[j..]);
    if r == [] {
      forall k | 0 <= k < |s| ensures IsSpace(s[k]) {
        if !IsSpace(s[k]) {
          SpacePrefixBefore(s, i, k);
          SpaceSuffixAfter(s, j, k);
        }
      }
    } else {
      assert s[i] == r[0];
    }
  }

  /** Cutting white space from the ends of `s` until neither end is white
      space can only give `TrimSpace(s)`. */
  lemma TrimSpaceUnique(s: string, r: string)
    requires StripsTo(s, r) && Trimmed(r)
    ensures r == TrimSpace(s)
  {
    StripsToEmpty(s, r);
    if r != [] {
      TrimSpaceStrips(s);
      StripsAgree(s, r, TrimSpace(s));
    }
  }

  lemma TrimSpaceIdempotent(s: string)
    ensures TrimSpace(TrimSpace(s)) == TrimSpace(s)
  {
  }

  /** ASCII case mapping of `strings.ToLower`. */
  function LowerChar(c: char): char {
    if 'A' <= c <= 'Z' then (c as int + 32) as char else c
  }

  /** No character of `s` changes under `LowerChar`. */
  predicate Lowered(s: string) {
    forall c :: c in s ==> LowerChar(c) == c
  }

  /** `strings.ToLower`, restricted to the ASCII letters. */
  function ToLower(s: string): (r: string)
    ensures |r| == |s|
    ensures forall i :: 0 <= i < |s| ==> r[i] == LowerChar(s[i])
    ensures Lowered(r)
  {
    seq(|s|, i requires 0 <= i < |s| => LowerChar(s[i]))
  }

  lemma LoweredIsFixed(s: string)
    requires Lowered(s)
    ensures ToLower(s) == s
  {
    assert forall i :: 0 <= i < |s| ==> s[i] in s;
  }

  /** Lower-casing commutes with dropping a prefix. */
  lemma LowerSuffix(s: string, lo: nat)
    requires lo <= |s|
    ensures ToLower(s)[lo..] == ToLower(s[lo..])
  {
    assert forall i :: 0 <= i < |s| - lo ==> ToLower(s)[lo..][i] == ToLower(s[lo..])[i];
  }

  /** Lower-casing commutes with taking a prefix. */
  lemma LowerPrefix(s: string, hi: nat)
    requires hi <= |s|
    ensures ToLower(s)[..hi] == ToLower(s[..hi])
  {
    assert forall i :: 0 <= i < hi ==> ToLower(s)[..hi][i] == ToLower(s[..hi])[i];
  }

  /** Lower-casing never turns a space into a non-space or back. */
  lemma LowerKeepsSpaces(c: char)
    ensures IsSpace(LowerChar(c)) == IsSpace(c)
  {
  }

  lemma {:induction false} TrimLeftLower(s: string)
    ensures TrimLeft(ToLower(s)) == ToLower(TrimLeft(s))
    decreases |s|
  {
    var low := ToLower(s);
    if |s| > 0 {
      assert low[0] == LowerChar(s[0]);
      LowerKeepsSpaces(s[0]);
      if IsSpace(s[0]) {
        LowerSuffix(s, 1);
        TrimLeftLower(s[1..]);
        assert TrimLeft(low) == TrimLeft(low[1..]);
        assert TrimLeft(s) == TrimLeft(s[1..]);
      } else {
        assert TrimLeft(low) == low;
        assert TrimLeft(s) == s;
      }
    } else {
      assert low == [];
    }
  }

  lemma {:induction false} TrimRightLower(s: string)
    ensures TrimRight(ToLower(s)) == ToLower(TrimRight(s))
    decreases |s|
  {
    if |s| > 0 {
      var low := ToLower(s);
      assert low[|s| - 1] == LowerChar(s[|s| - 1]);
      LowerKeepsSpaces(s[|s| - 1]);
      if IsSpace(s[|s| - 1]) {
        LowerPrefix(s, |s| - 1);
        TrimRightLower(s[..|s| - 1]);
      }
    }
  }

  /** Trimming and lower-casing commute. */
  lemma TrimLowerCommute(s: string)
    ensures TrimSpace(ToLower(s)) == ToLower(TrimSpace(s))
  {
    TrimLeftLower(s);
    TrimRightLower(TrimLeft(s));
  }

  /** A trimmed, lower-cased string is left alone by trimming and lower-casing
      it again. */
  lemma TrimLowerIdempotent(s: string)
    ensures TrimSpace(ToLower(TrimSpace(ToLower(s)))) == TrimSpace(ToLower(s))
  {
    var t := TrimSpace(ToLower(s));
    assert Lowered(t);
    LoweredIsFixed(t);
  }

  /** `strings.ReplaceAll(s, string(from), string(to))` for one-character
      arguments: every `from` becomes `to`, nothing else moves. */
  function ReplaceChar(s: string, from: char, to: char): (r: string)
    ensures |r| == |s|
    ensures forall i :: 0 <= i < |s| ==> r[i] == (if s[i] == from then to else s[i])
    ensures from != to ==> from !in r
  {
    seq(|s|, i requires 0 <= i < |s| => if s[i] == from then to else s[i])
  }

  /** `strings.ReplaceAll(s, string(c), "")`: deletes every `c`. */
  function RemoveChar(s: string, c: char): (r: string)
    ensures c !in r
    ensures forall x :: x in r ==> x in s
    ensures multiset(r) == multiset(s)[c := 0]
    ensures c !in s ==> r == s
    decreases |s|
  {
    if |s| == 0 then []
    else
      assert s == [s[0]] + s[1..];
      (if s[0] == c then [] else [s[0]]) + RemoveChar(s[1..], c)
  }

  /** `RemoveChar` keeps the order of what it keeps: it works piecewise. */
  lemma {:induction false} RemoveCharAppend(a: string, b: string, c: char)
    ensures RemoveChar(a + b, c) == RemoveChar(a, c) + RemoveChar(b, c)
    decreases |a|
  {
    if |a| > 0 {
      assert (a + b)[1..] == a[1..] + b;
      RemoveCharAppend(a[1..], b, c);
    } else {
      assert a + b == b;
    }
  }

  /** Index of the first `c` in `s`. */
  function IndexOf(s: string, c: char): (r: Option<nat>)
    ensures r.None? <==> c !in s
    ensures r.Some? ==> r.value < |s| && s[r.value] == c && c !in s[..r.value]
    decreases |s|
  {
    if |s| == 0 then None
    else if s[0] == c then Some(0)
    else
      match IndexOf(s[1..], c)
      case None => None
      case Some(k) =>
        assert s[..k + 1] == [s[0]] + s[1..][..k];
        Some(k + 1)
  }

  /** Index of the last `c` in `s`. */
  function LastIndexOf(s: string, c: char): (r: Option<nat>)
    ensures r.None? <==> c !in s
    ensures r.Some? ==> r.value < |s| && s[r.value] == c && c !in s[r.value + 1..]
    decreases |s|
  {
    if |s| == 0 then None
    else if s[|s| - 1] == c then Some(|s| - 1)
    else
      assert s == s[..|s| - 1] + [s[|s| - 1]];
      match LastIndexOf(s[..|s| - 1], c)
      case None => None
      case Some(k) =>
        assert s[k + 1..] == s[..|s| - 1][k + 1..] + [s[|s| - 1]];
        Some(k)
  }

  /** The first occurrence is the one with no earlier copy. */
  lemma IndexOfIs(s: string, c: char, k: nat)
    requires k < |s| && s[k] == c && c !in s[..k]
    ensures IndexOf(s, c) == Some(k)
  {
  }

  /** The last occurrence is the one with no later copy. */
  lemma LastIndexOfIs(s: string, c: char, k: nat)
    requires k < |s| && s[k] == c && c !in s[k + 1..]
    ensures LastIndexOf(s, c) == Some(k)
  {
  }

  /** A character absent from a prefix is first found where the suffix starts. */
  lemma IndexOfAfter(a: string, b: string, c: char)
    requires c !in a && |b| > 0 && b[0] == c
    ensures IndexOf(a + b, c) == Some(|a|)
  {
    assert (a + b)[..|a|] == a;
    IndexOfIs(a + b, c, |a|);
  }

  /** A character absent from a suffix is last found where the prefix ends. */
  lemma LastIndexOfBefore(a: string, b: string, c: char)
    requires c !in b && |a| > 0 && a[|a| - 1] == c
    ensures LastIndexOf(a + b, c) == Some(|a| - 1)
  {
    assert (a + b)[|a|..] == b;
    LastIndexOfIs(a + b, c, |a| - 1);
  }

  /** `strings.Split(s, string(sep))`: the pieces between separators, empty
      pieces included; an input without a separator is a single piece. */
  function Split(s: string, sep: char): (parts: seq<string>)
    ensures |parts| >= 1
    ensures forall i :: 0 <= i < |parts| ==> sep !in parts[i]
    decreases |s|
  {
    match IndexOf(s, sep)
    case None => [s]
    case Some(k) => [s[..k]] + Split(s[k + 1..], sep)
  }

  /** `strings.Join(parts, string(sep))`. */
  function Join(parts: seq<string>, sep: char): string
    requires |parts| >= 1
    decreases |parts|
  {
    if |parts| == 1 then parts[0] else parts[0] + [sep] + Join(parts[1..], sep)
  }

  /** Every character of a piece occurs in the input that was split. */
  lemma {:induction false} SplitPieceChars(s: string, sep: char, i: nat, c: char)
    requires i < |Split(s, sep)| && c in Split(s, sep)[i]
    ensures c in s
    decreases |s|
  {
    match IndexOf(s, sep)
    case None =>
    case Some(k) =>
      if i > 0 {
        assert Split(s, sep)[i] == Split(s[k + 1..], sep)[i - 1];
        SplitPieceChars(s[k + 1..], sep, i - 1, c);
      }
  }

  /** A character missing from the input is missing from every piece. */
  lemma SplitAvoids(s: string, sep: char, c: char)
    requires c !in s
    ensures forall i :: 0 <= i < |Split(s, sep)| ==> c !in Split(s, sep)[i]
  {
    forall i | 0 <= i < |Split(s, sep)| ensures c !in Split(s, sep)[i] {
      if c in Split(s, sep)[i] {
        SplitPieceChars(s, sep, i, c);
      }
    }
  }

  /** Every character of a join comes from a piece or is the separator. */
  lemma {:induction false} JoinChars(parts: seq<string>, sep: char, c: char)
    requires |parts| >= 1
    requires c in Join(parts, sep)
    ensures c == sep || exists i :: 0 <= i < |parts| && c in parts[i]
    decreases |parts|
  {
    if |parts| > 1 {
      if c !in parts[0] && c != sep {
        JoinChars(parts[1..], sep, c);
        var i :| 0 <= i < |parts[1..]| && c in parts[1..][i];
        assert c in parts[i + 1];
      }
    }
  }

  /** Joining the pieces restores the input. */
  lemma {:induction false} JoinSplit(s: string, sep: char)
    ensures Join(Split(s, sep), sep) == s
    decreases |s|
  {
    match IndexOf(s, sep)
    case None =>
    case Some(k) =>
      var parts := Split(s, sep);
      var rest := Split(s[k + 1..], sep);
      assert parts == [s[..k]] + rest;
      assert parts[1..] == rest;
      JoinSplit(s[k + 1..], sep);
      assert Join(parts, sep) == s[..k] + [sep] + Join(rest, sep);
      assert s == s[..k] + [sep] + s[k + 1..];
  }

  /** Splitting a join of separator-free pieces gives the pieces back. */
  lemma {:induction false} SplitJoin(parts: seq<string>, sep: char)
    requires |parts| >= 1
    requires forall i :: 0 <= i < |parts| ==> sep !in parts[i]
    ensures Split(Join(parts, sep), sep) == parts
    decreases |parts|
  {
    if |parts| > 1 {
      var rest := Join(parts[1..], sep);
      var tail := [sep] + rest;
      var s := parts[0] + tail;
      assert Join(parts, sep) == s;
      IndexOfAfter(parts[0], tail, sep);
      assert s[..|parts[0]|] == parts[0];
      assert s[|parts[0]| + 1..] == rest;
      SplitJoin(parts[1..], sep);
      assert parts == [parts[0]] + parts[1..];
    }
  }
}
