/**
 * JavaScript string operations the model relies on: trim, split, join, includes,
 * toLowerCase and the decimal rendering of a non-negative integer.
 * Strings are sequences of characters; a character stands for one code point.
 */
module Strings {
  import opened Wrappers

  /** ECMAScript WhiteSpace and LineTerminator: what String.prototype.trim strips and `\s` matches. */
  predicate IsSpace(c: char) {
    || c == ' ' || c == '\t' || c == '\n' || c == '\U{B}' || c == '\U{C}' || c == '\r'
    || c == '\U{A0}' || c == '\U{1680}' || ('\U{2000}' <= c <= '\U{200A}')
    || c == '\U{2028}' || c == '\U{2029}' || c == '\U{202F}' || c == '\U{205F}'
    || c == '\U{3000}' || c == '\U{FEFF}'
  }

  /** Every character is white space (the empty string included). */
  predicate IsBlank(s: string) {
    forall i :: 0 <= i < |s| ==> IsSpace(s[i])
  }

  /** Text after anything keeps the whole from being blank. */
  lemma NotBlankAfter(s: string, t: string)
    requires !IsBlank(t)
    ensures !IsBlank(s + t)
  {
    var i :| 0 <= i < |t| && !IsSpace(t[i]);
    assert (s + t)[|s| + i] == t[i];
  }

  /** Neither end is white space. */
  predicate IsTrimmed(s: string) {
    s == [] || (!IsSpace(s[0]) && !IsSpace(s[|s| - 1]))
  }

  /** Non-empty and trimmed: what `x.trim()` gives whenever it is truthy. */
  predicate IsClean(s: string) {
    s != [] && IsTrimmed(s)
  }

  /** How many white-space characters `s` starts with. */
  function LeadingSpaces(s: string): (n: nat)
    ensures n <= |s|
  {
    if s != [] && IsSpace(s[0]) then 1 + LeadingSpaces(s[1..]) else 0
  }

  /** The leading run is white space and is followed by a character that is not. */
  lemma {:induction false} LeadingSpacesBlank(s: string)
    ensures IsBlank(s[..LeadingSpaces(s)])
    ensures LeadingSpaces(s) < |s| ==> !IsSpace(s[LeadingSpaces(s)])
    decreases |s|
  {
    if s != [] && IsSpace(s[0]) {
      var n := LeadingSpaces(s[1..]);
      LeadingSpacesBlank(s[1..]);
      forall i | 0 < i < n + 1 ensures IsSpace(s[i]) {
        assert s[1..][..n][i - 1] == s[i];
      }
      if n + 1 < |s| {
        assert s[1..][n] == s[n + 1];
      }
    }
  }

  function TrimStart(s: string): (r: string)
    ensures |r| <= |s| && r == s[|s| - |r|..]
    ensures IsBlank(s[..|s| - |r|])
    ensures r == [] || !IsSpace(r[0])
  {
    LeadingSpacesBlank(s);
    s[LeadingSpaces(s)..]
  }

  function TrimEnd(s: string): (r: string)
    ensures |r| <= |s| && r == s[..|r|]
    ensures IsBlank(s[|r|..])
    ensures r == [] || !IsSpace(r[|r| - 1])
  {
    if s != [] && IsSpace(s[|s| - 1]) then
      var t := s[..|s| - 1];
      var r := TrimEnd(t);
      assert s[..|r|] == t[..|r|];
      assert forall i :: |r| <= i < |s| ==> IsSpace(s[i]) by {
        assert forall i :: |r| <= i < |t| ==> s[i] == t[|r|..][i - |r|];
      }
      r
    else s
  }

  /** `s.trim()`. */
  function Trim(s: string): (r: string)
    ensures IsTrimmed(r)
  {
    TrimEnd(TrimStart(s))
  }

  /** The trimmed string is the slice of `s` left after cutting white space off both ends. */
  lemma TrimSlice(s: string) returns (a: nat, b: nat)
    ensures a <= b <= |s| && Trim(s) == s[a..b]
    ensures IsBlank(s[..a]) && IsBlank(s[b..])
  {
    var t := TrimStart(s);
    a := |s| - |t|;
    b := a + |Trim(s)|;
    assert Trim(s) == t[..|Trim(s)|];
    assert s[b..] == t[|Trim(s)|..];
  }

  /** `r` is a contiguous piece of `t`. */
  predicate SliceOf(r: string, t: string) {
    exists a: nat, b: nat :: a <= b <= |t| && r == t[a..b]
  }

  lemma SliceOfSlice(t: string, x: nat, y: nat, i: nat, j: nat)
    requires x <= y <= |t| && i <= j <= y - x
    ensures t[x..y][i..j] == t[x + i..x + j]
  {
    assert |t[x..y][i..j]| == j - i;
    forall k | 0 <= k < j - i ensures t[x..y][i..j][k] == t[x + i..x + j][k] {
    }
  }

  /** A piece of a piece is a piece. */
  lemma SliceTrans(r: string, s: string, t: string)
    requires SliceOf(r, s) && SliceOf(s, t)
    ensures SliceOf(r, t)
  {
    var i: nat, j: nat :| i <= j <= |s| && r == s[i..j];
    var x: nat, y: nat :| x <= y <= |t| && s == t[x..y];
    SliceOfSlice(t, x, y, i, j);
  }

  lemma TrimIsSlice(s: string)
    ensures SliceOf(Trim(s), s)
  {
    var a, b := TrimSlice(s);
  }

  /** Trimming an already trimmed string changes nothing; in particular trim is idempotent. */
  lemma TrimTrimmed(s: string)
    requires IsTrimmed(s)
    ensures Trim(s) == s
  {
  }

  /** `s.trim()` is empty exactly when `s` is blank. */
  lemma TrimEmptyIffBlank(s: string)
    ensures Trim(s) == [] <==> IsBlank(s)
  {
    var a, b := TrimSlice(s);
    if Trim(s) == [] {
      assert a == b;
      forall i | 0 <= i < |s| ensures IsSpace(s[i]) {
        if i < a { assert s[..a][i] == s[i]; } else { assert s[b..][i - b] == s[i]; }
      }
    } else {
      assert !IsSpace(s[a]) by { assert Trim(s)[0] == s[a]; }
    }
  }

  /** Every character of `s` outside the trimmed part is white space, so a blank string trims to "". */
  lemma TrimBlank(s: string)
    requires IsBlank(s)
    ensures Trim(s) == []
  {
    TrimEmptyIffBlank(s);
  }

  /** White space around a trimmed string is exactly what trim removes. */
  lemma TrimPadded(a: string, body: string, b: string)
    requires IsBlank(a) && IsBlank(b) && IsClean(body)
    ensures Trim(a + body + b) == body
  {
    assert TrimStart(a + body + b) == body + b by {
      assert (body + b)[0] == body[0];
      assert a + body + b == a + (body + b);
      TrimStartBlank(a, body + b);
    }
    assert TrimEnd(body + b) == body by {
      TrimEndBlank(body, b);
    }
  }

  lemma {:induction false} LeadingSpacesOfBlank(a: string, rest: string)
    requires IsBlank(a) && (rest == [] || !IsSpace(rest[0]))
    ensures LeadingSpaces(a + rest) == |a|
    decreases |a|
  {
    if a == [] {
      assert a + rest == rest;
    } else {
      assert (a + rest)[0] == a[0];
      assert (a + rest)[1..] == a[1..] + rest;
      LeadingSpacesOfBlank(a[1..], rest);
    }
  }

  lemma TrimStartBlank(a: string, rest: string)
    requires IsBlank(a) && (rest == [] || !IsSpace(rest[0]))
    ensures TrimStart(a + rest) == rest
  {
    LeadingSpacesOfBlank(a, rest);
    assert (a + rest)[|a|..] == rest;
  }

  lemma {:induction false} LeadingSpacesAppend(s: string, suffix: string)
    requires !IsBlank(s)
    ensures LeadingSpaces(s + suffix) == LeadingSpaces(s)
    decreases |s|
  {
    assert (s + suffix)[0] == s[0];
    if IsSpace(s[0]) {
      assert !IsBlank(s[1..]) by {
        var i :| 0 <= i < |s| && !IsSpace(s[i]);
        assert s[1..][i - 1] == s[i];
      }
      assert (s + suffix)[1..] == s[1..] + suffix;
      LeadingSpacesAppend(s[1..], suffix);
    }
  }

  /** Text after a string that has a non-space character is untouched by trimming its start. */
  lemma TrimStartAppend(s: string, suffix: string)
    requires !IsBlank(s)
    ensures TrimStart(s + suffix) == TrimStart(s) + suffix
  {
    LeadingSpacesAppend(s, suffix);
    var n := LeadingSpaces(s);
    assert (s + suffix)[n..] == s[n..] + suffix;
  }

  /** A suffix that does not end in white space survives `trim` untouched. */
  lemma TrimAppend(s: string, suffix: string)
    requires !IsBlank(s) && suffix != [] && !IsSpace(suffix[|suffix| - 1])
    ensures Trim(s + suffix) == TrimStart(s) + suffix
  {
    var t := TrimStart(s) + suffix;
    assert TrimStart(s + suffix) == t by {
      TrimStartAppend(s, suffix);
    }
    assert TrimEnd(t) == t by {
      assert t[|t| - 1] == suffix[|suffix| - 1];
      assert t + [] == t;
      TrimEndBlank(t, []);
    }
  }

  lemma {:induction false} TrimEndBlank(rest: string, b: string)
    requires IsBlank(b) && (rest == [] || !IsSpace(rest[|rest| - 1]))
    ensures TrimEnd(rest + b) == rest
    decreases |b|
  {
    if b == [] {
      assert rest + b == rest;
    } else {
      assert (rest + b)[..|rest + b| - 1] == rest + b[..|b| - 1];
      TrimEndBlank(rest, b[..|b| - 1]);
    }
  }

  /** Index of the first occurrence of `c`. */
  function IndexOf(s: string, c: char): (r: Option<nat>)
    ensures r.Some? ==> r.value < |s| && s[r.value] == c && c !in s[..r.value]
    ensures r.None? <==> c !in s
  {
    if s == [] then None
    else if s[0] == c then Some(0)
    else match IndexOf(s[1..], c)
      case None => None
      case Some(i) => assert s[..i + 1] == [s[0]] + s[1..][..i]; Some(i + 1)
  }

  /** The first occurrence is the one with none before it. */
  lemma {:induction false} IndexOfAt(s: string, c: char, i: nat)
    requires i < |s| && s[i] == c && c !in s[..i]
    ensures IndexOf(s, c) == Some(i)
  {
    if i > 0 {
      assert s[0] == s[..i][0];
      assert s[1..][..i - 1] == s[..i][1..];
      IndexOfAt(s[1..], c, i - 1);
    }
  }

  /** `s.split(sep)` for a one-character separator: never empty, and "" splits to [""]. */
  function Split(s: string, sep: char): (r: seq<string>)
    ensures |r| >= 1
    ensures forall k :: 0 <= k < |r| ==> sep !in r[k]
    decreases |s|
  {
    match IndexOf(s, sep)
    case None => [s]
    case Some(i) => [s[..i]] + Split(s[i + 1..], sep)
  }

  /** `xs.join(sep)`. */
  function Join(xs: seq<string>, sep: string): string
  {
    if |xs| == 0 then ""
    else if |xs| == 1 then xs[0]
    else xs[0] + sep + Join(xs[1..], sep)
  }

  /** Joining the pieces of a split with the same separator gives the string back. */
  lemma {:induction false} JoinSplit(s: string, sep: char)
    ensures Join(Split(s, sep), [sep]) == s
    decreases |s|
  {
    match IndexOf(s, sep)
    case None =>
    case Some(i) =>
      var rest := Split(s[i + 1..], sep);
      JoinSplit(s[i + 1..], sep);
      assert ([s[..i]] + rest)[1..] == rest;
      assert Join([s[..i]] + rest, [sep]) == s[..i] + [sep] + Join(rest, [sep]);
      assert s == s[..i] + [sep] + s[i + 1..];
  }

  /** Splitting a join of separator-free pieces gives the pieces back. */
  lemma {:induction false} SplitJoin(xs: seq<string>, sep: char)
    requires |xs| >= 1
    requires forall k :: 0 <= k < |xs| ==> sep !in xs[k]
    ensures Split(Join(xs, [sep]), sep) == xs
  {
    if |xs| > 1 {
      var s := Join(xs, [sep]);
      var rest := Join(xs[1..], [sep]);
      assert s == xs[0] + [sep] + rest;
      assert s[..|xs[0]|] == xs[0];
      IndexOfAt(s, sep, |xs[0]|);
      assert s[|xs[0]| + 1..] == rest;
      SplitJoin(xs[1..], sep);
    }
  }

  /** `s.startsWith(p)`. */
  predicate StartsWith(s: string, p: string) {
    |p| <= |s| && s[..|p|] == p
  }

  /** `text.includes(pat)`. */
  predicate Contains(text: string, pat: string)
    decreases |text|
  {
    StartsWith(text, pat) || (text != [] && Contains(text[1..], pat))
  }

  /** What a string contains, a longer string that begins with it contains too. */
  lemma {:induction false} ContainsExtendRight(a: string, b: string, pat: string)
    requires Contains(a, pat)
    ensures Contains(a + b, pat)
    decreases |a|
  {
    if StartsWith(a, pat) {
      assert (a + b)[..|pat|] == a[..|pat|];
    } else {
      ContainsExtendRight(a[1..], b, pat);
      assert (a + b)[1..] == a[1..] + b;
    }
  }

  /** What a string contains, a longer string that ends with it contains too. */
  lemma {:induction false} ContainsExtendLeft(a: string, b: string, pat: string)
    requires Contains(b, pat)
    ensures Contains(a + b, pat)
    decreases |a|
  {
    if a == [] {
      assert a + b == b;
    } else {
      ContainsExtendLeft(a[1..], b, pat);
      assert (a + b)[1..] == a[1..] + b;
    }
  }

  /** `p` occurs in `s` at index `k`. */
  predicate OccursAt(s: string, p: string, k: nat) {
    k + |p| <= |s| && s[k..k + |p|] == p
  }

  /** `s.indexOf(p, from)`, with -1 read as None. */
  function FindFrom(s: string, p: string, from: nat): (r: Option<nat>)
    ensures r.Some? ==> from <= r.value && OccursAt(s, p, r.value)
    ensures r.Some? ==> forall k :: from <= k < r.value ==> !OccursAt(s, p, k)
    ensures r.None? ==> forall k :: from <= k ==> !OccursAt(s, p, k)
    decreases |s| - from
  {
    if from + |p| > |s| then None
    else if OccursAt(s, p, from) then Some(from)
    else FindFrom(s, p, from + 1)
  }

  /** Index of the last occurrence of `c` (String.prototype.lastIndexOf). */
  function LastIndexOf(s: string, c: char): (r: Option<nat>)
    ensures r.Some? ==> r.value < |s| && s[r.value] == c && c !in s[r.value + 1..]
    ensures r.None? <==> c !in s
  {
    if s == [] then None
    else if s[|s| - 1] == c then Some(|s| - 1)
    else
      assert s == s[..|s| - 1] + [s[|s| - 1]];
      match LastIndexOf(s[..|s| - 1], c)
      case None => None
      case Some(i) => assert s[i + 1..] == s[..|s| - 1][i + 1..] + [s[|s| - 1]]; Some(i)
  }

  /** The last occurrence is the one with none after it. */
  lemma {:induction false} LastIndexOfAt(s: string, c: char, i: nat)
    requires i < |s| && s[i] == c && c !in s[i + 1..]
    ensures LastIndexOf(s, c) == Some(i)
    decreases |s|
  {
    if i < |s| - 1 {
      var init := s[..|s| - 1];
      var after := s[i + 1..];
      assert s[|s| - 1] == after[|s| - 2 - i];
      assert init[i + 1..] == after[..|after| - 1];
      LastIndexOfAt(init, c, i);
    }
  }

  /** ASCII case folding (the only kind the model's inputs need; see README). */
  function LowerChar(c: char): char {
    if 'A' <= c <= 'Z' then (c as int + 32) as char else c
  }

  /** `s.toLowerCase()`. */
  function ToLower(s: string): (r: string)
    ensures |r| == |s|
    ensures forall i :: 0 <= i < |s| ==> r[i] == LowerChar(s[i])
  {
    seq(|s|, i requires 0 <= i < |s| => LowerChar(s[i]))
  }

  predicate IsDigit(c: char) {
    '0' <= c <= '9'
  }

  /** `String(n)` for a non-negative integer: its decimal digits, no leading zero. */
  function NatToString(n: nat): (r: string)
    ensures r != [] && forall i :: 0 <= i < |r| ==> IsDigit(r[i])
    ensures (n < 10) == (|r| == 1)
  {
    if n < 10 then [(48 + n) as char]
    else NatToString(n / 10) + [(48 + n % 10) as char]
  }

  /** Different numbers render differently. */
  lemma {:induction false} NatToStringInjective(m: nat, n: nat)
    requires NatToString(m) == NatToString(n)
    ensures m == n
    decreases n
  {
    var s := NatToString(m);
    if m >= 10 && n >= 10 {
      assert s[|s| - 1] == (48 + m % 10) as char && s[|s| - 1] == (48 + n % 10) as char;
      assert NatToString(m / 10) == s[..|s| - 1] == NatToString(n / 10);
      NatToStringInjective(m / 10, n / 10);
    }
  }

  /** Joining one more piece adds the separator and the piece at the end. */
  lemma {:induction false} JoinAppend(xs: seq<string>, y: string, sep: string)
    requires xs != []
    ensures Join(xs + [y], sep) == Join(xs, sep) + sep + y
  {
    if |xs| > 1 {
      assert (xs + [y])[1..] == xs[1..] + [y];
      JoinAppend(xs[1..], y, sep);
    }
  }

  /** A join whose separator is white space is blank exactly when every piece is. */
  lemma {:induction false} JoinBlank(xs: seq<string>, sep: string)
    requires IsBlank(sep)
    ensures IsBlank(Join(xs, sep)) <==> forall k :: 0 <= k < |xs| ==> IsBlank(xs[k])
  {
    if |xs| > 1 {
      JoinBlank(xs[1..], sep);
      var rest := Join(xs[1..], sep);
      var whole := xs[0] + sep + rest;
      assert forall i :: 0 <= i < |xs[0]| ==> whole[i] == xs[0][i];
      assert forall i :: 0 <= i < |rest| ==> whole[|xs[0]| + |sep| + i] == rest[i];
      assert forall k :: 1 <= k < |xs| ==> xs[k] == xs[1..][k - 1];
    }
  }

  /** Text contained in a join is still contained once one more piece is joined on. */
  lemma JoinAppendContains(texts: seq<string>, y: string, pat: string)
    requires Contains(Join(texts, " "), pat)
    ensures Contains(Join(texts + [y], " "), pat)
  {
    if texts == [] {
      assert StartsWith(Join(texts, " "), pat);
      assert texts + [y] == [y];
      assert StartsWith(y, pat);
    } else {
      JoinAppend(texts, y, " ");
      assert Join(texts, " ") + " " + y == Join(texts, " ") + (" " + y);
      ContainsExtendRight(Join(texts, " "), " " + y, pat);
    }
  }

  /** Every piece of a join occurs in it. */
  lemma {:induction false} JoinContains(xs: seq<string>, sep: string, k: nat)
    requires k < |xs|
    ensures Contains(Join(xs, sep), xs[k])
  {
    if |xs| == 1 {
      assert StartsWith(xs[0], xs[0]);
    } else {
      var rest := Join(xs[1..], sep);
      assert Join(xs, sep) == xs[0] + (sep + rest);
      if k == 0 {
        assert StartsWith(xs[0], xs[0]);
        ContainsExtendRight(xs[0], sep + rest, xs[0]);
      } else {
        JoinContains(xs[1..], sep, k - 1);
        assert Join(xs, sep) == (xs[0] + sep) + rest;
        ContainsExtendLeft(xs[0] + sep, rest, xs[k]);
      }
    }
  }

  /** A run of digits starting at `i` and ended by a non-digit is determined by the string. */
  lemma DigitRunUnique(s: string, i: nat, p: string, q: string)
    requires i + |p| < |s| && i + |q| < |s|
    requires s[i..i + |p|] == p && s[i..i + |q|] == q
    requires forall j :: 0 <= j < |p| ==> IsDigit(p[j])
    requires forall j :: 0 <= j < |q| ==> IsDigit(q[j])
    requires !IsDigit(s[i + |p|]) && !IsDigit(s[i + |q|])
    ensures p == q
  {
    assert forall j :: 0 <= j < |p| ==> s[i + j] == p[j];
    assert forall j :: 0 <= j < |q| ==> s[i + j] == q[j];
  }

  /** Where each of four concatenated pieces sits in the whole. */
  lemma ConcatParts(a: string, b: string, c: string, d: string)
    requires c != []
    ensures var s := a + b + c + d;
      && |s| == |a| + |b| + |c| + |d|
      && s[..|a|] == a
      && s[|a|..|a| + |b|] == b
      && s[|a| + |b|] == c[0]
      && s[|s| - |d|..] == d
  {
    var s := a + b + c + d;
    assert s == a + (b + (c + d));
    assert s[|a|..] == b + (c + d);
    assert s[|a| + |b|..] == c + d;
  }
}
