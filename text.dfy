/**
 * The Python string operations the core relies on, written out over
 * `seq<char>`: `lower`, `in` (substring), `replace`, `split()`, `join`,
 * `strip` and `startswith`. Character classes are the ASCII ones.
 */
module Text {

  predicate IsUpper(c: char) { 'A' <= c <= 'Z' }

  predicate IsLetter(c: char) { 'a' <= c <= 'z' || 'A' <= c <= 'Z' }

  predicate IsDigit(c: char) { '0' <= c <= '9' }

  /**
   * The ASCII characters that `str.split()`, `str.strip()` and the regular
   * expression class `\s` treat as whitespace: the space, tab, line feed,
   * vertical tab, form feed, carriage return, and the four separators
   * U+001C to U+001F.
   */
  predicate IsSpace(c: char) {
    c == ' ' || c == '\t' || c == '\n' || c == '\r' || c == '\U{000B}' || c == '\U{000C}'
    || ('\U{001C}' <= c <= '\U{001F}')
  }

  function ToLowerChar(c: char): (r: char)
    ensures !IsUpper(r)
    ensures IsLetter(r) <==> IsLetter(c)
    ensures IsDigit(r) <==> IsDigit(c)
    ensures IsSpace(r) <==> IsSpace(c)
    ensures !IsUpper(c) ==> r == c
  {
    if IsUpper(c) then (c as int + 32) as char else c
  }

  /** Python's `str.lower()`. */
  function Lower(s: string): (r: string)
    ensures |r| == |s|
    ensures forall i :: 0 <= i < |s| ==> r[i] == ToLowerChar(s[i])
  {
    if s == [] then [] else [ToLowerChar(s[0])] + Lower(s[1..])
  }

  predicate NoUpper(s: string) { forall i :: 0 <= i < |s| ==> !IsUpper(s[i]) }

  lemma LowerIsLower(s: string)
    ensures NoUpper(Lower(s))
    ensures NoUpper(s) ==> Lower(s) == s
  {
  }

  predicate AllDigits(s: string) { forall i :: 0 <= i < |s| ==> IsDigit(s[i]) }

  predicate HasDigit(s: string) { exists i :: 0 <= i < |s| && IsDigit(s[i]) }

  predicate StartsWith(s: string, p: string) { |p| <= |s| && s[..|p|] == p }

  predicate OccursAt(q: string, s: string, i: int) {
    0 <= i && i + |q| <= |s| && s[i..i + |q|] == q
  }

  /** Python's `q in s` on strings: substring containment. */
  predicate Occurs(q: string, s: string) {
    exists i | 0 <= i <= |s| - |q| :: OccursAt(q, s, i)
  }

  /** Python's `any(term in s for term in terms)`. */
  predicate AnyOccurs(terms: seq<string>, s: string) {
    exists t | t in terms :: Occurs(t, s)
  }

  /** A text that lacks one of the characters of `q` does not contain `q`. */
  lemma MissingChar(q: string, s: string, k: nat)
    requires k < |q| && q[k] !in s
    ensures !Occurs(q, s)
  {
  }

  /**
   * Python's `s.replace(p, r)`: scan left to right, replace every
   * non-overlapping occurrence of `p` and keep every other character.
   */
  function ReplaceAll(s: string, p: string, r: string): string
    requires |p| > 0
    decreases |s|
  {
    if |s| < |p| then s
    else if s[..|p|] == p then r + ReplaceAll(s[|p|..], p, r)
    else [s[0]] + ReplaceAll(s[1..], p, r)
  }

  /** Every character of a replacement result comes from the input or from the replacement text. */
  lemma {:induction false} ReplaceAllChars(s: string, p: string, r: string)
    requires |p| > 0
    ensures forall c :: c in ReplaceAll(s, p, r) ==> c in s || c in r
    decreases |s|
  {
    if |s| < |p| {
    } else if s[..|p|] == p {
      ReplaceAllChars(s[|p|..], p, r);
    } else {
      ReplaceAllChars(s[1..], p, r);
    }
  }

  lemma ReplaceAllNoUpper(s: string, p: string, r: string)
    requires |p| > 0 && NoUpper(s) && NoUpper(r)
    ensures NoUpper(ReplaceAll(s, p, r))
  {
    ReplaceAllChars(s, p, r);
    var t := ReplaceAll(s, p, r);
    forall i | 0 <= i < |t| ensures !IsUpper(t[i]) {
      assert t[i] in t;
    }
  }

  /**
   * `r` placed so that it starts at offset `e` of `q` (negative: before `q`)
   * disagrees with `q` on some position they share.
   */
  predicate MismatchAt(q: string, r: string, e: int) {
    exists k | 0 <= k < |q| :: 0 <= k - e < |r| && q[k] != r[k - e]
  }

  /** No copy of `r` can share a position with an occurrence of `q`. */
  predicate NoOverlap(q: string, r: string) {
    forall e | 1 - |r| <= e < |q| :: MismatchAt(q, r, e)
  }

  /** A computable check of `MismatchAt(q, r, e)` from position `k` of `q` on. */
  function MismatchFrom(q: string, r: string, e: int, k: nat): bool
    decreases |q| - k
  {
    k < |q| && ((0 <= k - e < |r| && q[k] != r[k - e]) || MismatchFrom(q, r, e, k + 1))
  }

  /** A computable check of `MismatchAt` for every offset from `e` up to `|q| - 1`. */
  function NoOverlapFrom(q: string, r: string, e: int): bool
    decreases |q| - e
  {
    e >= |q| || (MismatchFrom(q, r, e, 0) && NoOverlapFrom(q, r, e + 1))
  }

  lemma {:induction false} MismatchFromSound(q: string, r: string, e: int, k: nat)
    requires MismatchFrom(q, r, e, k)
    ensures MismatchAt(q, r, e)
    decreases |q| - k
  {
    if !(0 <= k - e < |r| && q[k] != r[k - e]) {
      MismatchFromSound(q, r, e, k + 1);
    }
  }

  lemma {:induction false} NoOverlapFromSound(q: string, r: string, e: int)
    requires NoOverlapFrom(q, r, e)
    ensures forall f | e <= f < |q| :: MismatchAt(q, r, f)
    decreases |q| - e
  {
    if e < |q| {
      MismatchFromSound(q, r, e, 0);
      NoOverlapFromSound(q, r, e + 1);
    }
  }

  lemma OccursInSuffix(q: string, s: string, k: nat)
    requires k <= |s| && Occurs(q, s[k..])
    ensures Occurs(q, s)
  {
    var i :| 0 <= i <= |s[k..]| - |q| && OccursAt(q, s[k..], i);
    assert s[k + i..k + i + |q|] == s[k..][i..i + |q|];
    assert OccursAt(q, s, k + i);
  }

  /** An occurrence after the first `|head|` characters is an occurrence in the rest. */
  lemma OccurrenceInTail(head: string, rest: string, q: string, i: nat)
    requires |head| <= i && OccursAt(q, head + rest, i)
    ensures OccursAt(q, rest, i - |head|)
  {
    assert rest[i - |head|..i - |head| + |q|] == (head + rest)[i..i + |q|];
  }

  /**
   * The first `m` characters of `s.replace(p, r)` either are the first `m`
   * characters of `s`, or an inserted copy of `r` starts among them.
   */
  lemma {:induction false} PrefixOrBlock(s: string, p: string, r: string, m: nat)
    requires |p| > 0 && m <= |ReplaceAll(s, p, r)|
    ensures (m <= |s| && ReplaceAll(s, p, r)[..m] == s[..m])
         || exists j | 0 <= j < m :: OccursAt(r, ReplaceAll(s, p, r), j)
    decreases |s|
  {
    var out := ReplaceAll(s, p, r);
    if |s| < |p| || m == 0 {
    } else if s[..|p|] == p {
      assert out[0..|r|] == r;
      assert OccursAt(r, out, 0);
    } else {
      var tail := ReplaceAll(s[1..], p, r);
      assert out == [s[0]] + tail;
      PrefixOrBlock(s[1..], p, r, m - 1);
      if m - 1 <= |s[1..]| && tail[..m - 1] == s[1..][..m - 1] {
        assert out[..m] == [s[0]] + tail[..m - 1];
        assert s[..m] == [s[0]] + s[1..][..m - 1];
      } else {
        var j :| 0 <= j < m - 1 && OccursAt(r, tail, j);
        assert out[j + 1..j + 1 + |r|] == tail[j..j + |r|];
        assert OccursAt(r, out, j + 1);
      }
    }
  }

  /** Where a copy of `r` sits, no occurrence of `q` sharing a position with it can start. */
  lemma NoSharedPosition(q: string, r: string, t: string, i: int, j: int)
    requires NoOverlap(q, r) && |q| > 0
    requires OccursAt(r, t, j)
    requires j < i + |q| && i < j + |r|
    ensures !OccursAt(q, t, i)
  {
    var e := j - i;
    if 0 <= i && i + |q| <= |t| {
      assert MismatchAt(q, r, e);
      var k :| 0 <= k < |q| && 0 <= k - e < |r| && q[k] != r[k - e];
      assert t[j..j + |r|][k - e] == t[i + k];
      assert t[i..i + |q|][k] != q[k];
    }
  }

  /**
   * An occurrence of `q` at the start of `[s[0]] + s[1..].replace(p, r)`
   * is an occurrence at the start of `s`.
   */
  lemma OccurrenceAtKeptStart(s: string, p: string, r: string, q: string)
    requires |p| > 0 && |q| > 0 && |s| > 0
    requires NoOverlap(q, r)
    requires OccursAt(q, [s[0]] + ReplaceAll(s[1..], p, r), 0)
    ensures OccursAt(q, s, 0)
  {
    var tail := s[1..];
    var rt := ReplaceAll(tail, p, r);
    var out := [s[0]] + rt;
    PrefixOrBlock(tail, p, r, |q| - 1);
    if |q| - 1 <= |tail| && rt[..|q| - 1] == tail[..|q| - 1] {
      assert out[..|q|] == [s[0]] + rt[..|q| - 1];
      assert s[..|q|] == [s[0]] + tail[..|q| - 1];
    } else {
      var j :| 0 <= j < |q| - 1 && OccursAt(r, rt, j);
      assert out[j + 1..j + 1 + |r|] == rt[j..j + |r|];
      NoSharedPosition(q, r, out, 0, j + 1);
    }
  }

  /**
   * After `s.replace(p, r)` there is no occurrence of `q`, when no copy of
   * `r` can overlap an occurrence of `q`, and either `q` is `p` itself or
   * `q` did not occur in `s`. This is how a rewrite such as
   * `replace("can't", "cannot")` removes every "can't" for good, and how a
   * later rewrite is shown not to bring one back.
   */
  lemma {:induction false} ReplaceAllNoNewOccurrence(s: string, p: string, r: string, q: string)
    requires |p| > 0 && |q| > 0
    requires NoOverlap(q, r)
    requires q == p || !Occurs(q, s)
    ensures !Occurs(q, ReplaceAll(s, p, r))
    decreases |s|
  {
    if |s| >= |p| {
      var matched := s[..|p|] == p;
      var head := if matched then r else [s[0]];
      var tail := if matched then s[|p|..] else s[1..];
      if q != p && Occurs(q, tail) {
        OccursInSuffix(q, s, |s| - |tail|);
      }
      ReplaceAllNoNewOccurrence(tail, p, r, q);
      var rt := ReplaceAll(tail, p, r);
      var out := ReplaceAll(s, p, r);
      assert out == head + rt;
      if Occurs(q, out) {
        var i :| 0 <= i <= |out| - |q| && OccursAt(q, out, i);
        if i >= |head| {
          OccurrenceInTail(head, rt, q, i);
        } else if matched {
          assert OccursAt(r, out, 0);
          NoSharedPosition(q, r, out, i, 0);
        } else {
          OccurrenceAtKeptStart(s, p, r, q);
        }
      }
    }
  }

  /** A pattern holding a character the text lacks is never replaced. */
  lemma {:induction false} ReplaceAllAbsent(s: string, p: string, r: string, c: char)
    requires |p| > 0 && c in p && c !in s
    ensures ReplaceAll(s, p, r) == s
    decreases |s|
  {
    if |s| >= |p| {
      assert forall x | x in s[..|p|] :: x in s;
      assert s[..|p|] != p;
      ReplaceAllAbsent(s[1..], p, r, c);
      assert s == [s[0]] + s[1..];
    }
  }

  /** `s.replace(p, r)` has the length of `s` when `p` and `r` have the same length. */
  lemma {:induction false} ReplaceAllLength(s: string, p: string, r: string)
    requires |p| > 0 && |r| == |p|
    ensures |ReplaceAll(s, p, r)| == |s|
    decreases |s|
  {
    if |s| < |p| {
    } else if s[..|p|] == p {
      ReplaceAllLength(s[|p|..], p, r);
    } else {
      ReplaceAllLength(s[1..], p, r);
    }
  }

  function Last(s: string): char
    requires s != []
  {
    s[|s| - 1]
  }

  /** No two neighbouring characters of `s` form a pair that `bad` rejects. */
  predicate NoPair(s: string, bad: (char, char) -> bool) {
    forall i | 0 <= i < |s| - 1 :: !bad(s[i], s[i + 1])
  }

  /** A character put in front of a text with no rejected pair adds none when it forms no pair with the text's first character. */
  lemma ConsNoPair(c: char, t: string, bad: (char, char) -> bool)
    requires NoPair(t, bad) && (t == [] || !bad(c, t[0]))
    ensures NoPair([c] + t, bad)
  {
    var out := [c] + t;
    forall i | 0 <= i < |out| - 1 ensures !bad(out[i], out[i + 1]) {
      assert out[i + 1] == t[i];
      if i > 0 {
        assert out[i] == t[i - 1];
      }
    }
  }

  /** The first character of a replacement result, when there is one. */
  lemma FirstOfReplaceAll(s: string, p: string, r: string)
    requires |p| > 0 && |r| > 0 && s != []
    ensures ReplaceAll(s, p, r) != []
    ensures ReplaceAll(s, p, r)[0] == (if |s| >= |p| && s[..|p|] == p then r[0] else s[0])
  {
  }

  /**
   * `s.replace(p, r)` creates no rejected pair when `r` holds none, a pair
   * rejected before `r` would have been rejected before `p`, and a pair
   * rejected after `r` would have been rejected after `p`.
   */
  lemma {:induction false} ReplaceAllNoPair(s: string, p: string, r: string, bad: (char, char) -> bool)
    requires |p| > 0 && |r| > 0
    requires NoPair(s, bad) && NoPair(r, bad)
    requires forall c :: bad(c, r[0]) ==> bad(c, p[0])
    requires forall c :: bad(Last(r), c) ==> bad(Last(p), c)
    ensures NoPair(ReplaceAll(s, p, r), bad)
    decreases |s|
  {
    if |s| >= |p| {
      var matched := s[..|p|] == p;
      var head := if matched then r else [s[0]];
      var tail := if matched then s[|p|..] else s[1..];
      assert NoPair(tail, bad) by {
        forall i | 0 <= i < |tail| - 1 ensures !bad(tail[i], tail[i + 1]) {
          assert tail[i] == s[i + |s| - |tail|] && tail[i + 1] == s[i + 1 + |s| - |tail|];
        }
      }
      ReplaceAllNoPair(tail, p, r, bad);
      var rt := ReplaceAll(tail, p, r);
      var out := ReplaceAll(s, p, r);
      assert out == head + rt;
      if rt != [] {
        var last := head[|head| - 1];
        FirstOfReplaceAll(tail, p, r);
        var joined := |tail| >= |p| && tail[..|p|] == p;
        if matched {
          assert s[|p| - 1] == p[|p| - 1];
          if joined {
            assert s[|p|] == tail[0] == p[0];
          }
          assert !bad(s[|p| - 1], s[|p|]);
        } else {
          if joined {
            assert s[1] == tail[0] == p[0];
          }
          assert !bad(s[0], s[1]);
        }
        assert !bad(last, rt[0]);
      }
      forall i | 0 <= i < |out| - 1 ensures !bad(out[i], out[i + 1]) {
        if i + 1 < |head| {
          assert out[i] == head[i] && out[i + 1] == head[i + 1];
        } else if i + 1 == |head| {
          assert out[i] == head[|head| - 1] && out[i + 1] == rt[0];
        } else {
          assert out[i] == rt[i - |head|] && out[i + 1] == rt[i + 1 - |head|];
        }
      }
    }
  }

  /** Number of leading characters of `s` that are not whitespace. */
  function WordLength(s: string): (n: nat)
    ensures n <= |s|
    ensures forall i :: 0 <= i < n ==> !IsSpace(s[i])
    ensures n < |s| ==> IsSpace(s[n])
  {
    if s == [] || IsSpace(s[0]) then 0 else 1 + WordLength(s[1..])
  }

  /** Python's `s.split()` with no argument: the maximal runs of non-whitespace characters. */
  function SplitWords(s: string): (words: seq<string>)
    ensures forall w :: w in words ==> w != [] && forall i :: 0 <= i < |w| ==> !IsSpace(w[i])
    decreases |s|
  {
    if s == [] then []
    else if IsSpace(s[0]) then SplitWords(s[1..])
    else
      var n := WordLength(s);
      [s[..n]] + SplitWords(s[n..])
  }

  /** Python's `sep.join(parts)`. */
  function Join(parts: seq<string>, sep: string): string {
    if parts == [] then []
    else if |parts| == 1 then parts[0]
    else parts[0] + sep + Join(parts[1..], sep)
  }

  function TrimStart(s: string): (r: string)
    ensures r == [] || !IsSpace(r[0])
    ensures |r| <= |s| && r == s[|s| - |r|..]
  {
    if s != [] && IsSpace(s[0]) then TrimStart(s[1..]) else s
  }

  function TrimEnd(s: string): (r: string)
    ensures r == [] || !IsSpace(r[|r| - 1])
    ensures |r| <= |s| && r == s[..|r|]
  {
    if s != [] && IsSpace(s[|s| - 1]) then TrimEnd(s[..|s| - 1]) else s
  }

  /** Trimming the end never removes a character that is not whitespace. */
  lemma {:induction false} TrimEndKeeps(s: string, i: int)
    requires 0 <= i < |s| && !IsSpace(s[i])
    ensures i < |TrimEnd(s)|
    decreases |s|
  {
    if IsSpace(s[|s| - 1]) {
      TrimEndKeeps(s[..|s| - 1], i);
    }
  }

  /** Python's `s.strip()`. */
  function Strip(s: string): string { TrimEnd(TrimStart(s)) }

  /**
   * `re.sub(r'\s+', ' ', s)`: every maximal run of whitespace becomes a
   * single space.
   */
  function Collapse(s: string): (r: string)
    decreases |s|
  {
    if s == [] then []
    else if IsSpace(s[0]) then [' '] + Collapse(TrimStart(s[1..]))
    else [s[0]] + Collapse(s[1..])
  }

  /** The first step of the collapse: a whitespace run becomes one space, any other character is kept. */
  lemma CollapseStep(s: string)
    requires s != []
    ensures Collapse(s) ==
      if IsSpace(s[0]) then [' '] + Collapse(TrimStart(s[1..])) else [s[0]] + Collapse(s[1..])
  {
  }

  predicate SpacePair(a: char, b: char) { IsSpace(a) && IsSpace(b) }

  /** The only whitespace character in `s` is the plain space. */
  predicate OnlyPlainSpaces(s: string) {
    forall i | 0 <= i < |s| :: IsSpace(s[i]) ==> s[i] == ' '
  }

  /** The collapsed text is empty only for empty `s`, and starts with whitespace exactly when `s` does. */
  lemma CollapseHead(s: string)
    ensures Collapse(s) == [] <==> s == []
    ensures s != [] ==> (IsSpace(Collapse(s)[0]) <==> IsSpace(s[0]))
  {
    if s != [] {
      CollapseStep(s);
    }
  }

  lemma ConsPlainSpaces(c: char, t: string)
    requires OnlyPlainSpaces(t) && (IsSpace(c) ==> c == ' ')
    ensures OnlyPlainSpaces([c] + t)
  {
    var out := [c] + t;
    forall i | 0 <= i < |out| && IsSpace(out[i]) ensures out[i] == ' ' {
      if i > 0 {
        assert out[i] == t[i - 1];
      }
    }
  }

  /** The only whitespace the collapsed text holds is the plain space. */
  lemma {:induction false} CollapsePlainSpaces(s: string)
    ensures OnlyPlainSpaces(Collapse(s))
    decreases |s|
  {
    if s != [] {
      var rest := if IsSpace(s[0]) then TrimStart(s[1..]) else s[1..];
      CollapsePlainSpaces(rest);
      CollapseStep(s);
      ConsPlainSpaces(if IsSpace(s[0]) then ' ' else s[0], Collapse(rest));
    }
  }

  lemma ConsKeepsChars(c: char, t: string, s: string, rest: string)
    requires s != [] && (c == s[0] || IsSpace(c))
    requires |rest| <= |s| && rest == s[|s| - |rest|..]
    requires forall x :: x in t && !IsSpace(x) ==> x in rest
    ensures forall x :: x in [c] + t && !IsSpace(x) ==> x in s
  {
    forall x | x in t && !IsSpace(x) ensures x in s {
      var k :| 0 <= k < |rest| && rest[k] == x;
      assert s[k + |s| - |rest|] == x;
    }
  }

  /** Every character of the collapsed text other than whitespace comes from `s`. */
  lemma {:induction false} CollapseKeepsChars(s: string)
    ensures forall c :: c in Collapse(s) && !IsSpace(c) ==> c in s
    decreases |s|
  {
    if s != [] {
      var rest := if IsSpace(s[0]) then TrimStart(s[1..]) else s[1..];
      CollapseKeepsChars(rest);
      CollapseStep(s);
      ConsKeepsChars(if IsSpace(s[0]) then ' ' else s[0], Collapse(rest), s, rest);
    }
  }

  /**
   * The collapsed text uses only the plain space, keeps every other
   * character of `s`, is empty only for empty `s`, and starts with
   * whitespace exactly when `s` does.
   */
  lemma CollapseChars(s: string)
    ensures OnlyPlainSpaces(Collapse(s))
    ensures forall c :: c in Collapse(s) && !IsSpace(c) ==> c in s
    ensures Collapse(s) == [] <==> s == []
    ensures s != [] ==> (IsSpace(Collapse(s)[0]) <==> IsSpace(s[0]))
  {
    CollapsePlainSpaces(s);
    CollapseKeepsChars(s);
    CollapseHead(s);
  }

  /** The collapsed text has no two neighbouring whitespace characters. */
  lemma {:induction false} CollapseNoSpacePair(s: string)
    ensures NoPair(Collapse(s), SpacePair)
    decreases |s|
  {
    if s != [] {
      var rest := if IsSpace(s[0]) then TrimStart(s[1..]) else s[1..];
      CollapseNoSpacePair(rest);
      CollapseHead(rest);
      var c := if IsSpace(s[0]) then ' ' else s[0];
      var cr := Collapse(rest);
      CollapseStep(s);
      assert Collapse(s) == [c] + cr;
      if IsSpace(s[0]) && cr != [] {
        assert rest != [] && !IsSpace(rest[0]);
        assert !IsSpace(cr[0]);
      }
      ConsNoPair(c, cr, SpacePair);
    }
  }

  /** Collapsing whitespace creates no pair that `bad` rejects, when `bad` never involves whitespace. */
  lemma {:induction false} CollapseNoPair(s: string, bad: (char, char) -> bool)
    requires NoPair(s, bad)
    requires forall a, b :: bad(a, b) ==> !IsSpace(a) && !IsSpace(b)
    ensures NoPair(Collapse(s), bad)
    decreases |s|
  {
    if s != [] {
      var rest := if IsSpace(s[0]) then TrimStart(s[1..]) else s[1..];
      assert NoPair(rest, bad) by {
        forall i | 0 <= i < |rest| - 1 ensures !bad(rest[i], rest[i + 1]) {
          assert rest[i] == s[i + |s| - |rest|] && rest[i + 1] == s[i + 1 + |s| - |rest|];
        }
      }
      CollapseNoPair(rest, bad);
      var c := if IsSpace(s[0]) then ' ' else s[0];
      var cr := Collapse(rest);
      CollapseStep(s);
      assert Collapse(s) == [c] + cr;
      if !IsSpace(s[0]) && cr != [] {
        assert rest == s[1..] && rest != [];
        assert cr[0] == ' ' || cr[0] == s[1] by {
          if !IsSpace(rest[0]) {
            assert cr == [rest[0]] + Collapse(rest[1..]);
          } else {
            assert cr == [' '] + Collapse(TrimStart(rest[1..]));
          }
        }
      }
      ConsNoPair(c, cr, bad);
    }
  }

  predicate DigitLetter(a: char, b: char) { IsDigit(a) && IsLetter(b) }

  /**
   * `s` with a space inserted before every position `j` that `at(s, j)`
   * selects, for the positions from `i` on.
   */
  function SpaceBefore(s: string, at: (string, int) -> bool, i: nat): string
    decreases |s| - i
  {
    if i >= |s| then []
    else (if i > 0 && at(s, i) then [' '] else []) + [s[i]] + SpaceBefore(s, at, i + 1)
  }

  /** Inserting spaces adds no character other than the space. */
  lemma {:induction false} SpaceBeforeChars(s: string, at: (string, int) -> bool, i: nat)
    ensures forall c :: c in SpaceBefore(s, at, i) ==> c in s || c == ' '
    decreases |s| - i
  {
    if i < |s| {
      SpaceBeforeChars(s, at, i + 1);
    }
  }

  /** A position where a digit is directly followed by a letter. */
  predicate UnitBoundary(s: string, j: int) {
    0 < j < |s| && DigitLetter(s[j - 1], s[j])
  }

  /**
   * `re.sub(r'(\d+)([a-zA-Z]+)', r'\1 \2', s)`. Each match is a maximal
   * digit run directly followed by letters, and the scan resumes after the
   * letters, so the substitution puts a space exactly at every place where
   * a digit is directly followed by a letter.
   */
  function UnitSplit(s: string): string { SpaceBefore(s, UnitBoundary, 0) }

  /**
   * A position where a digit run that follows "<digit>-" is directly
   * followed by a letter.
   */
  predicate RangeBoundary(s: string, j: int) {
    && UnitBoundary(s, j)
    && exists b | 2 <= b < j :: s[b - 1] == '-' && IsDigit(s[b - 2]) && AllDigits(s[b..j])
  }

  /**
   * `re.sub(r'(\d+)-(\d+)([a-zA-Z]+)', r'\1-\2 \3', s)`: a space between
   * the second number of a range and the letters right after it.
   */
  function RangeSplit(s: string): string { SpaceBefore(s, RangeBoundary, 0) }

  /** A space is inserted only at the positions `at` selects, so when it selects none the text is kept. */
  lemma {:induction false} SpaceBeforeNone(s: string, at: (string, int) -> bool, i: nat)
    requires i <= |s|
    requires forall j | i < j < |s| :: !at(s, j)
    requires i == 0 || i == |s| || !at(s, i)
    ensures SpaceBefore(s, at, i) == s[i..]
    decreases |s| - i
  {
    if i < |s| {
      SpaceBeforeNone(s, at, i + 1);
      SpaceBeforeStep(s, at, i);
      assert [s[i]] + s[i + 1..] == s[i..];
    }
  }

  lemma SpaceBeforeStep(s: string, at: (string, int) -> bool, i: nat)
    requires i < |s| && (i == 0 || !at(s, i))
    ensures SpaceBefore(s, at, i) == [s[i]] + SpaceBefore(s, at, i + 1)
  {
  }

  /**
   * The unit split leaves no digit directly followed by a letter: the
   * prefix built from position `i` starts with `s[i]` (or a space), and
   * every digit of `s` that precedes a letter gets a space after it.
   */
  lemma {:induction false} UnitSplitFrom(s: string, i: nat)
    requires i < |s|
    ensures var t := SpaceBefore(s, UnitBoundary, i);
      NoPair(t, DigitLetter) && t != [] && (t[0] == s[i] || (t[0] == ' ' && i > 0))
    decreases |s| - i
  {
    var t := SpaceBefore(s, UnitBoundary, i);
    var pre := (if i > 0 && UnitBoundary(s, i) then [' '] else []) + [s[i]];
    var rest := SpaceBefore(s, UnitBoundary, i + 1);
    assert t == pre + rest;
    if i + 1 < |s| {
      UnitSplitFrom(s, i + 1);
      assert rest[0] == s[i + 1] || rest[0] == ' ';
      assert rest[0] == ' ' || !DigitLetter(s[i], rest[0]);
    } else {
      assert rest == [];
    }
    forall k | 0 <= k < |t| - 1 ensures !DigitLetter(t[k], t[k + 1]) {
      if k + 1 < |pre| {
      } else if k + 1 == |pre| {
        assert t[k] == s[i] && t[k + 1] == rest[0];
      } else {
        assert t[k] == rest[k - |pre|] && t[k + 1] == rest[k + 1 - |pre|];
      }
    }
  }

  lemma UnitSplitNoDigitLetter(s: string)
    ensures NoPair(UnitSplit(s), DigitLetter)
  {
    if s != [] {
      UnitSplitFrom(s, 0);
    }
  }

  /**
   * Once no digit is directly followed by a letter, the range substitution
   * has nothing to match: after the unit substitution it never changes the
   * text.
   */
  lemma RangeSplitIdle(s: string)
    requires NoPair(s, DigitLetter)
    ensures RangeSplit(s) == s
  {
    forall j | 0 < j < |s| ensures !RangeBoundary(s, j) {
      assert !DigitLetter(s[j - 1], s[j]);
    }
    SpaceBeforeNone(s, RangeBoundary, 0);
  }

  /** A text whose only whitespace is single plain spaces is its own collapse. */
  lemma {:induction false} CollapseId(s: string)
    requires OnlyPlainSpaces(s) && NoPair(s, SpacePair)
    ensures Collapse(s) == s
    decreases |s|
  {
    if s != [] {
      var t := s[1..];
      assert OnlyPlainSpaces(t) && NoPair(t, SpacePair) by {
        forall i | 0 <= i < |t| - 1 ensures !SpacePair(t[i], t[i + 1]) {
          assert t[i] == s[i + 1] && t[i + 1] == s[i + 2];
        }
      }
      CollapseId(t);
      CollapseStep(s);
      if IsSpace(s[0]) {
        assert t == [] || !IsSpace(t[0]) by {
          if t != [] {
            assert !SpacePair(s[0], s[1]);
          }
        }
        assert TrimStart(t) == t;
      }
      assert [s[0]] + t == s;
    }
  }

  /** Replacing a text that does not occur changes nothing. */
  lemma {:induction false} ReplaceAllAbsentId(s: string, p: string, r: string)
    requires |p| > 0 && !Occurs(p, s)
    ensures ReplaceAll(s, p, r) == s
    decreases |s|
  {
    if |s| >= |p| {
      assert s[..|p|] != p by {
        assert !OccursAt(p, s, 0);
      }
      assert !Occurs(p, s[1..]) by {
        forall i | 0 <= i <= |s[1..]| - |p| ensures !OccursAt(p, s[1..], i) {
          assert s[1..][i..i + |p|] == s[i + 1..i + 1 + |p|];
          assert !OccursAt(p, s, i + 1);
        }
      }
      ReplaceAllAbsentId(s[1..], p, r);
      assert [s[0]] + s[1..] == s;
    }
  }

  /** With no digit directly followed by a letter, the unit substitution has nothing to match. */
  lemma UnitSplitIdle(s: string)
    requires NoPair(s, DigitLetter)
    ensures UnitSplit(s) == s
  {
    forall j | 0 < j < |s| ensures !UnitBoundary(s, j) {
      assert !DigitLetter(s[j - 1], s[j]);
    }
    SpaceBeforeNone(s, UnitBoundary, 0);
  }
}
