/** String and sequence primitives of JavaScript that the bot relies on:
    `toLowerCase`, `parseInt` and `toString` on decimal numbers, `replace`
    with a string pattern, `padEnd`, `repeat`, `trim`, `split(/ +/)` and
    slicing a sequence into fixed-size pieces. */
module Text {

  // ---------------------------------------------------------------------
  // Lower-casing

  /** `toLowerCase` on one character (ASCII letters only). */
  function Lower(c: char): (r: char)
    ensures 'A' <= c <= 'Z' ==> 'a' <= r <= 'z'
    ensures !('A' <= c <= 'Z') ==> r == c
  {
    if 'A' <= c <= 'Z' then (c as int - 'A' as int + 'a' as int) as char else c
  }

  /** `String.prototype.toLowerCase`. */
  function LowerStr(s: string): (r: string)
    ensures |r| == |s|
    ensures forall i :: 0 <= i < |s| ==> r[i] == Lower(s[i])
  {
    seq(|s|, i requires 0 <= i < |s| => Lower(s[i]))
  }

  /** Comparing lower-cased strings is an equivalence, and lower-casing is idempotent. */
  lemma LowerStrIdempotent(s: string)
    ensures LowerStr(LowerStr(s)) == LowerStr(s)
  {
    var l := LowerStr(s);
    forall i | 0 <= i < |s| ensures LowerStr(l)[i] == l[i] {
      assert Lower(Lower(s[i])) == Lower(s[i]);
    }
  }

  // ---------------------------------------------------------------------
  // Decimal numbers

  predicate IsDigit(c: char) { '0' <= c <= '9' }

  predicate AllDigits(s: string) { forall i :: 0 <= i < |s| ==> IsDigit(s[i]) }

  function DigitValue(c: char): (d: nat)
    requires IsDigit(c)
    ensures d < 10
  {
    c as int - '0' as int
  }

  function DigitChar(d: nat): (c: char)
    requires d < 10
    ensures IsDigit(c) && DigitValue(c) == d
  {
    ('0' as int + d) as char
  }

  /** `parseInt(s, 10)` on a string made of decimal digits only. */
  function DigitsValue(s: string): nat
    requires AllDigits(s)
  {
    if s == [] then 0
    else DigitsValue(s[..|s| - 1]) * 10 + DigitValue(s[|s| - 1])
  }

  /** `n.toString()` on a non-negative integer. */
  function NatToDecimal(n: nat): (r: string)
    ensures r != [] && AllDigits(r)
  {
    if n < 10 then [DigitChar(n)] else NatToDecimal(n / 10) + [DigitChar(n % 10)]
  }

  /** Reading back what `toString` wrote gives the number again. */
  lemma {:induction false} DecimalRoundTrip(n: nat)
    ensures DigitsValue(NatToDecimal(n)) == n
  {
    var r := NatToDecimal(n);
    if n >= 10 {
      DecimalRoundTrip(n / 10);
      assert r[..|r| - 1] == NatToDecimal(n / 10);
    }
  }

  // ---------------------------------------------------------------------
  // replace, padEnd, repeat

  /** `s.replace(pat, rep)` with a string pattern: only the first occurrence is replaced. */
  function ReplaceFirst(s: string, pat: string, rep: string): string
    decreases |s|
  {
    if |pat| <= |s| && s[..|pat|] == pat then rep + s[|pat|..]
    else if s == [] then s
    else [s[0]] + ReplaceFirst(s[1..], pat, rep)
  }

  /** A pattern whose first character does not occur before it is replaced where it stands. */
  lemma {:induction false} ReplaceFirstAt(a: string, pat: string, b: string, rep: string)
    requires pat != [] && pat[0] !in a
    ensures ReplaceFirst(a + pat + b, pat, rep) == a + rep + b
  {
    var s := a + pat + b;
    if a == [] {
      assert s[..|pat|] == pat;
      assert s[|pat|..] == b;
    } else {
      assert s[0] == a[0] != pat[0];
      assert s[..|pat|] != pat by { assert s[..|pat|][0] != pat[0]; }
      assert s[1..] == a[1..] + pat + b;
      ReplaceFirstAt(a[1..], pat, b, rep);
    }
  }

  /** A pattern that does not occur leaves the string unchanged. */
  lemma {:induction false} ReplaceFirstAbsent(s: string, pat: string, rep: string)
    requires pat != [] && pat[0] !in s
    ensures ReplaceFirst(s, pat, rep) == s
  {
    if s != [] {
      if |pat| <= |s| {
        assert s[..|pat|][0] != pat[0];
      }
      ReplaceFirstAbsent(s[1..], pat, rep);
    }
  }

  /** `c.repeat(n)` for a one-character string. */
  function Repeat(c: char, n: nat): (r: string)
    ensures |r| == n
    ensures forall i :: 0 <= i < n ==> r[i] == c
  {
    seq(n, _ => c)
  }

  /** `s.padEnd(width)`: spaces are appended up to the width; longer strings are kept. */
  function PadEnd(s: string, width: nat): (r: string)
    ensures |s| <= width ==> |r| == width
    ensures |s| > width ==> r == s
    ensures r[..|s|] == s
    ensures forall i :: |s| <= i < |r| ==> r[i] == ' '
  {
    if |s| < width then s + Repeat(' ', width - |s|) else s
  }

  // ---------------------------------------------------------------------
  // trim and split(/ +/)

  /** The characters `String.prototype.trim` removes (white space and line terminators). */
  predicate IsJsSpace(c: char)
  {
    c == '\t' || c == '\n' || c == '\U{000B}' || c == '\U{000C}' || c == '\r' || c == ' '
    || c == '\U{00A0}' || c == '\U{1680}' || ('\U{2000}' <= c <= '\U{200A}')
    || c == '\U{2028}' || c == '\U{2029}' || c == '\U{202F}' || c == '\U{205F}'
    || c == '\U{3000}' || c == '\U{FEFF}'
  }

  predicate AllSpace(s: string) { forall i :: 0 <= i < |s| ==> IsJsSpace(s[i]) }

  function TrimStart(s: string): (r: string)
    ensures r == [] || !IsJsSpace(r[0])
    ensures |r| <= |s| && r == s[|s| - |r|..] && AllSpace(s[..|s| - |r|])
  {
    if s != [] && IsJsSpace(s[0]) then
      var r := TrimStart(s[1..]);
      SpaceBefore(s, |s[1..]| - |r|);
      r
    else s
  }

  function TrimEnd(s: string): (r: string)
    ensures r == [] || !IsJsSpace(r[|r| - 1])
    ensures |r| <= |s| && r == s[..|r|] && AllSpace(s[|r|..])
  {
    if s != [] && IsJsSpace(s[|s| - 1]) then
      var r := TrimEnd(s[..|s| - 1]);
      SpaceAfter(s, |r|);
      r
    else s
  }

  /** A space, then `m` spaces: the first `m + 1` characters are spaces, and
      what follows them is what follows the `m`. */
  lemma SpaceBefore(s: string, m: nat)
    requires s != [] && IsJsSpace(s[0]) && m <= |s| - 1 && AllSpace(s[1..][..m])
    ensures AllSpace(s[..m + 1]) && s[1..][m..] == s[m + 1..]
  {
    forall i | 0 < i <= m ensures IsJsSpace(s[i]) {
      assert s[i] == s[1..][..m][i - 1];
    }
  }

  /** Spaces after position `m` of all but the last character, and a space
      last: every character after position `m` is a space, and the first
      `m` are those of the shorter string. */
  lemma SpaceAfter(s: string, m: nat)
    requires s != [] && IsJsSpace(s[|s| - 1]) && m <= |s| - 1 && AllSpace(s[..|s| - 1][m..])
    ensures AllSpace(s[m..]) && s[..|s| - 1][..m] == s[..m]
  {
    forall i | m <= i < |s| - 1 ensures IsJsSpace(s[i]) {
      assert s[i] == s[..|s| - 1][m..][i - m];
    }
  }

  /** `r` is a slice of `s` with only white space before and after it. */
  predicate SpaceAround(s: string, r: string)
  {
    exists i :: 0 <= i && i + |r| <= |s| && r == s[i..i + |r|] && AllSpace(s[..i]) && AllSpace(s[i + |r|..])
  }

  /** `s.trim()`: the result is a slice of `s` with white space only around it, none at its ends. */
  function Trim(s: string): (r: string)
    ensures r == [] || (!IsJsSpace(r[0]) && !IsJsSpace(r[|r| - 1]))
    ensures SpaceAround(s, r)
  {
    var t := TrimStart(s);
    var r := TrimEnd(t);
    TrimSlice(s, t, r);
    r
  }

  /** A slice `r` at the front of a slice `t` at the back of `s`. */
  lemma TrimSlice(s: string, t: string, r: string)
    requires |t| <= |s| && t == s[|s| - |t|..] && AllSpace(s[..|s| - |t|]) && (t == [] || !IsJsSpace(t[0]))
    requires |r| <= |t| && r == t[..|r|] && AllSpace(t[|r|..]) && (r == [] || !IsJsSpace(r[|r| - 1]))
    ensures r == [] || (!IsJsSpace(r[0]) && !IsJsSpace(r[|r| - 1]))
    ensures SpaceAround(s, r)
  {
    var i := |s| - |t|;
    SliceShift(s, i, 0, |r|);
    SliceShift(s, i, |r|, |t|);
    assert r == [] || r[0] == t[0];
    assert 0 <= i && i + |r| <= |s| && r == s[i..i + |r|] && AllSpace(s[..i]) && AllSpace(s[i + |r|..]);
  }

  /** A string with no white space at either end is its own trim. */
  lemma TrimmedAlready(s: string)
    requires s != [] && !IsJsSpace(s[0]) && !IsJsSpace(s[|s| - 1])
    ensures Trim(s) == s
  {
    assert TrimStart(s) == s;
    assert TrimEnd(s) == s;
  }

  /** Index of the first space in `s`. */
  function FirstSpace(s: string): (i: nat)
    requires ' ' in s
    ensures i < |s| && s[i] == ' ' && ' ' !in s[..i]
  {
    if s[0] == ' ' then 0 else 1 + FirstSpace(s[1..])
  }

  /** Drops the leading run of spaces. */
  function DropSpaces(s: string): (r: string)
    ensures |r| <= |s| && r == s[|s| - |r|..]
    ensures r == [] || r[0] != ' '
    ensures forall i :: 0 <= i < |s| - |r| ==> s[i] == ' '
  {
    if s != [] && s[0] == ' ' then DropSpaces(s[1..]) else s
  }

  /** `s.split(/ +/)`: the pieces between maximal runs of spaces. */
  function SplitSpaces(s: string): (r: seq<string>)
    ensures |r| >= 1
    ensures forall k :: 0 <= k < |r| ==> ' ' !in r[k]
    decreases |s|
  {
    if ' ' !in s then [s]
    else
      var i := FirstSpace(s);
      var rest := SplitSpaces(DropSpaces(s[i..]));
      assert forall k :: 0 < k <= |rest| ==> ([s[..i]] + rest)[k] == rest[k - 1];
      [s[..i]] + rest
  }

  /** `tokens.join(' ')`. */
  function JoinSpaces(ts: seq<string>): string
    requires |ts| >= 1
  {
    if |ts| == 1 then ts[0] else ts[0] + " " + JoinSpaces(ts[1..])
  }

  predicate NoDoubleSpace(s: string)
  {
    forall i :: 0 <= i < |s| - 1 ==> !(s[i] == ' ' && s[i + 1] == ' ')
  }

  /** Splitting a string without runs of two spaces and joining the pieces gives it back. */
  lemma {:induction false} SplitJoin(s: string)
    requires NoDoubleSpace(s)
    ensures JoinSpaces(SplitSpaces(s)) == s
    decreases |s|
  {
    if ' ' in s {
      var i := FirstSpace(s);
      var rest := DropSpaces(s[i..]);
      assert s[i..][0] == ' ';
      assert |s[i..]| == 1 || s[i..][1] != ' ' by {
        if |s[i..]| > 1 { assert s[i + 1] != ' '; }
      }
      assert rest == s[i + 1..];
      assert NoDoubleSpace(rest) by {
        forall k | 0 <= k < |rest| - 1 ensures !(rest[k] == ' ' && rest[k + 1] == ' ') {
          assert rest[k] == s[i + 1 + k] && rest[k + 1] == s[i + 1 + k + 1];
        }
      }
      SplitJoin(rest);
      SplitAround(s, i);
      var ts := SplitSpaces(rest);
      assert ([s[..i]] + ts)[1..] == ts;
    }
  }

  /** A sequence is its part before `i`, the element at `i` and its part after. */
  lemma SplitAround<T>(s: seq<T>, i: nat)
    requires i < |s|
    ensures s == s[..i] + [s[i]] + s[i + 1..]
  {
  }

  /** Joining space-free, non-empty tokens and splitting again gives the tokens back. */
  lemma {:induction false} JoinSplit(ts: seq<string>)
    requires |ts| >= 1
    requires forall k :: 0 <= k < |ts| ==> ts[k] != [] && ' ' !in ts[k]
    ensures SplitSpaces(JoinSpaces(ts)) == ts
  {
    if |ts| > 1 {
      var tail := ts[1..];
      var rest := JoinSpaces(tail);
      JoinStartsWithToken(tail);
      SplitAfterToken(ts[0], rest);
      JoinSplit(tail);
      ConsTail(ts);
    }
  }

  lemma ConsTail<T>(s: seq<T>)
    requires s != []
    ensures [s[0]] + s[1..] == s
  {
  }

  /** A space-free token, one space and a string not starting with a space split at that space. */
  lemma SplitAfterToken(t: string, rest: string)
    requires ' ' !in t
    requires rest != [] && rest[0] != ' '
    ensures SplitSpaces(t + " " + rest) == [t] + SplitSpaces(rest)
  {
    var s := t + " " + rest;
    FirstSpaceAfterToken(t, rest);
    assert s[..|t|] == t;
    assert DropSpaces(s[|t|..]) == rest by {
      assert s[|t|..][1..] == rest;
    }
  }

  lemma FirstSpaceAfterToken(t: string, rest: string)
    requires ' ' !in t
    ensures ' ' in t + " " + rest && FirstSpace(t + " " + rest) == |t|
  {
    var s := t + " " + rest;
    assert s[|t|] == ' ';
    assert s[..|t|] == t;
  }

  lemma {:induction false} JoinStartsWithToken(ts: seq<string>)
    requires |ts| >= 1 && ts[0] != [] && ' ' !in ts[0]
    ensures JoinSpaces(ts) != [] && JoinSpaces(ts)[0] != ' '
  {
    assert ts[0][0] in ts[0];
    if |ts| > 1 { assert JoinSpaces(ts)[0] == ts[0][0]; }
  }

  /** A trimmed, non-empty string splits into non-empty tokens. */
  lemma {:induction false} SplitTrimmedNonEmpty(s: string)
    requires s != [] && s[0] != ' ' && s[|s| - 1] != ' '
    ensures forall k :: 0 <= k < |SplitSpaces(s)| ==> SplitSpaces(s)[k] != []
    decreases |s|
  {
    if ' ' in s {
      var i := FirstSpace(s);
      var rest := DropSpaces(s[i..]);
      assert i > 0;
      assert rest != [];
      assert rest[|rest| - 1] == s[|s| - 1];
      SplitTrimmedNonEmpty(rest);
    }
  }

  // ---------------------------------------------------------------------
  // Fixed-size pieces

  /** Cutting `s` into consecutive pieces of `n` elements, the last one possibly shorter. */
  function Chunks<T>(s: seq<T>, n: nat): (r: seq<seq<T>>)
    requires n > 0
    ensures forall k :: 0 <= k < |r| ==> 0 < |r[k]| <= n
    decreases |s|
  {
    if s == [] then []
    else if |s| <= n then [s]
    else [s[..n]] + Chunks(s[n..], n)
  }

  function Flatten<T>(ss: seq<seq<T>>): seq<T>
  {
    if ss == [] then [] else ss[0] + Flatten(ss[1..])
  }

  /** The pieces put back together are the input. */
  lemma {:induction false} ChunksFlatten<T>(s: seq<T>, n: nat)
    requires n > 0
    ensures Flatten(Chunks(s, n)) == s
    decreases |s|
  {
    if |s| > n {
      ChunksFlatten(s[n..], n);
      assert Chunks(s, n)[1..] == Chunks(s[n..], n);
      assert s == s[..n] + s[n..];
    } else if s != [] {
      assert Flatten(Chunks(s, n)) == s + Flatten<T>([]);
    }
  }

  /** All pieces but the last have exactly `n` elements. */
  lemma {:induction false} ChunksSizes<T>(s: seq<T>, n: nat)
    requires n > 0
    ensures forall k :: 0 <= k < |Chunks(s, n)| - 1 ==> |Chunks(s, n)[k]| == n
    decreases |s|
  {
    if |s| > n {
      ChunksSizes(s[n..], n);
      assert Chunks(s, n)[1..] == Chunks(s[n..], n);
    }
  }

  /** Piece `k` starts at offset `k * n` of the input. */
  lemma {:induction false} ChunkAt<T>(s: seq<T>, n: nat, k: nat)
    requires n > 0 && k < |Chunks(s, n)|
    ensures k * n < |s|
    ensures Chunks(s, n)[k] == s[k * n .. if (k + 1) * n <= |s| then (k + 1) * n else |s|]
    decreases |s|
  {
    MulSucc(k, n);
    if k > 0 {
      var t := s[n..];
      var j := k - 1;
      assert |s| > n && Chunks(s, n) == [s[..n]] + Chunks(t, n);
      ChunkAt(t, n, j);
      MulSucc(j, n);
      var lo, next := j * n, (j + 1) * n;
      var hi := if next <= |t| then next else |t|;
      ChunkNext(s, n, j, lo, hi);
      assert k * n == lo + n && (k + 1) * n == next + n;
    }
  }

  /** Piece `j` of the rest after the first piece is piece `j + 1`, shifted by `n`. */
  lemma ChunkNext<T>(s: seq<T>, n: nat, j: nat, lo: nat, hi: nat)
    requires n > 0 && |s| > n && j < |Chunks(s[n..], n)| && lo <= hi <= |s| - n
    requires Chunks(s[n..], n)[j] == s[n..][lo..hi]
    ensures j + 1 < |Chunks(s, n)| && Chunks(s, n)[j + 1] == s[lo + n..hi + n]
  {
    assert Chunks(s, n) == [s[..n]] + Chunks(s[n..], n);
    SliceShift(s, n, lo, hi);
  }

  lemma SliceShift<T>(s: seq<T>, n: nat, lo: nat, hi: nat)
    requires n <= |s| && lo <= hi <= |s| - n
    ensures s[n..][lo..hi] == s[lo + n..hi + n]
  {
    assert forall i :: 0 <= i < hi - lo ==> s[n..][lo..hi][i] == s[lo + n + i];
  }

  lemma MulSucc(j: nat, n: nat)
    ensures (j + 1) * n == j * n + n
  {
  }
}
