/** The string primitives the converter and the export panel rely on, with the
    meaning Python's `str` methods (`strip`, `startswith`, `in`, `split`,
    `replace(p, '')`, `rstrip(c)`, `str(n)`) and JavaScript template literals
    give them. Strings are sequences of characters; the ASCII characters
    Python's `str.isspace` accepts (U+0009 to U+000D, U+001C to U+001F and
    the space) count as whitespace, and no non-ASCII character does. */
module PyStr {

  /** Python's `str.isspace` restricted to ASCII: \t, \n, \v, \f, \r, the four
      separators U+001C to U+001F, and the space. */
  predicate IsSpace(c: char) {
    c == ' ' || c == '\t' || c == '\n' || c == '\r' || c == '\U{B}' || c == '\U{C}'
    || c == '\U{1C}' || c == '\U{1D}' || c == '\U{1E}' || c == '\U{1F}'
  }

  /** `s.lstrip()`: the suffix of `s` left after dropping leading whitespace. */
  function LStrip(s: string): (r: string)
    ensures |r| <= |s| && r == s[|s| - |r|..]
    ensures forall i :: 0 <= i < |s| - |r| ==> IsSpace(s[i])
    ensures r == [] || !IsSpace(r[0])
  {
    if |s| > 0 && IsSpace(s[0]) then LStrip(s[1..]) else s
  }

  /** `s.rstrip()`: the prefix of `s` left after dropping trailing whitespace. */
  function RStrip(s: string): (r: string)
    ensures |r| <= |s| && r == s[..|r|]
    ensures forall i :: |r| <= i < |s| ==> IsSpace(s[i])
    ensures r == [] || !IsSpace(r[|r| - 1])
  {
    if |s| > 0 && IsSpace(s[|s| - 1]) then RStrip(s[..|s| - 1]) else s
  }

  /** `r` is the slice of `s` starting at `i`, and everything of `s` before
      and after that slice is whitespace. */
  predicate TrimmedAt(s: string, r: string, i: int) {
    0 <= i <= |s| - |r| && r == s[i..i + |r|] && AllSpace(s[..i]) && AllSpace(s[i + |r|..])
  }

  /** `r` is `s` with some whitespace cut off at either end. */
  ghost predicate TrimmedFrom(s: string, r: string) {
    exists i :: TrimmedAt(s, r, i)
  }

  /** Every character of `t` is whitespace. */
  predicate AllSpace(t: string) {
    |t| == 0 || (IsSpace(t[0]) && AllSpace(t[1..]))
  }

  lemma {:induction false} AllSpaceHolds(t: string)
    requires forall j :: 0 <= j < |t| ==> IsSpace(t[j])
    ensures AllSpace(t)
  {
    if |t| > 0 {
      AllSpaceHolds(t[1..]);
    }
  }

  /** `s.strip()`: a contiguous piece of `s` with no whitespace at either end. */
  function Strip(s: string): (r: string)
    ensures |r| <= |s| && forall c :: c in r ==> c in s
    ensures r == [] || (!IsSpace(r[0]) && !IsSpace(r[|r| - 1]))
    ensures TrimmedFrom(s, r)
  {
    var l := LStrip(s);
    var r := RStrip(l);
    assert forall c :: c in r ==> c in l;
    assert forall c :: c in l ==> c in s;
    SliceOfSuffix(s, l, r);
    r
  }

  /** A prefix `r` of a suffix `l` of `s`, whose cut-off ends are whitespace,
      is a slice of `s` with whitespace on both sides. */
  lemma SliceOfSuffix(s: string, l: string, r: string)
    requires |l| <= |s| && l == s[|s| - |l|..]
    requires forall i :: 0 <= i < |s| - |l| ==> IsSpace(s[i])
    requires |r| <= |l| && r == l[..|r|]
    requires forall i :: |r| <= i < |l| ==> IsSpace(l[i])
    ensures TrimmedFrom(s, r)
  {
    var i := |s| - |l|;
    assert r == s[i..i + |r|];
    AllSpaceHolds(s[..i]);
    assert s[i + |r|..] == l[|r|..];
    AllSpaceHolds(l[|r|..]);
    assert TrimmedAt(s, r, i);
  }

  /** Stripping twice is stripping once. */
  lemma StripIdempotent(s: string)
    ensures Strip(Strip(s)) == Strip(s)
  {
    var r := Strip(s);
    assert LStrip(r) == r;
    assert RStrip(r) == r;
  }

  /** `s.rstrip(c)`: drop every trailing copy of the character `c`. */
  function RStripChar(s: string, c: char): (r: string)
    ensures |r| <= |s| && r == s[..|r|]
    ensures forall i :: |r| <= i < |s| ==> s[i] == c
    ensures r == [] || r[|r| - 1] != c
  {
    if |s| > 0 && s[|s| - 1] == c then RStripChar(s[..|s| - 1], c) else s
  }

  /** `s.startswith(p)`. */
  predicate StartsWith(s: string, p: string) {
    |p| <= |s| && s[..|p|] == p
  }

  /** `p` occurs in `s` starting at index `i`. */
  predicate OccursAt(s: string, p: string, i: int) {
    0 <= i && i + |p| <= |s| && s[i..i + |p|] == p
  }

  /** `s.find(p)` for a non-empty `p`: the first index at which `p` occurs, or -1. */
  function Find(s: string, p: string): (r: int)
    requires |p| > 0
    ensures r == -1 || 0 <= r <= |s| - |p|
    ensures r >= 0 ==> OccursAt(s, p, r)
    ensures r >= 0 ==> forall i :: i < r ==> !OccursAt(s, p, i)
    ensures r < 0 ==> forall i :: !OccursAt(s, p, i)
    decreases |s|
  {
    if |s| < |p| then -1
    else if s[..|p|] == p then 0
    else
      var k := Find(s[1..], p);
      assert forall i :: OccursAt(s, p, i) && i >= 1 ==> OccursAt(s[1..], p, i - 1) by {
        forall i | OccursAt(s, p, i) && i >= 1 ensures OccursAt(s[1..], p, i - 1) {
          assert s[1..][i - 1..i - 1 + |p|] == s[i..i + |p|];
        }
      }
      if k < 0 then -1
      else
        assert s[1..][k..k + |p|] == s[k + 1..k + 1 + |p|];
        k + 1
  }

  /** Python's `p in s` for a non-empty `p`. */
  predicate Contains(s: string, p: string)
    requires |p| > 0
  {
    Find(s, p) >= 0
  }

  /** `s.split(sep)` for a non-empty separator: the pieces between the
      non-overlapping occurrences of `sep`, scanned from the left. */
  function Split(s: string, sep: string): (r: seq<string>)
    requires |sep| > 0
    ensures |r| >= 1
    ensures Contains(s, sep) <==> |r| >= 2
    decreases |s|
  {
    var k := Find(s, sep);
    if k < 0 then [s] else [s[..k]] + Split(s[k + |sep|..], sep)
  }

  /** `sep.join(parts)`. */
  function Join(parts: seq<string>, sep: string): string
    requires |parts| >= 1
  {
    if |parts| == 1 then parts[0] else parts[0] + sep + Join(parts[1..], sep)
  }

  /** Splitting loses nothing: joining the pieces gives back the string. */
  lemma {:induction false} SplitJoin(s: string, sep: string)
    requires |sep| > 0
    ensures Join(Split(s, sep), sep) == s
    decreases |s|
  {
    var k := Find(s, sep);
    if k >= 0 {
      var rest := s[k + |sep|..];
      SplitJoin(rest, sep);
      assert Split(s, sep) == [s[..k]] + Split(rest, sep);
      JoinCons(s[..k], Split(rest, sep), sep);
      CutAround(s, k, sep);
    }
  }

  lemma JoinCons(p: string, parts: seq<string>, sep: string)
    requires |parts| >= 1
    ensures Join([p] + parts, sep) == p + sep + Join(parts, sep)
  {
    assert ([p] + parts)[1..] == parts;
  }

  /** A string is the text before an occurrence of `p`, `p`, and the text
      after it. */
  lemma CutAround(s: string, k: int, p: string)
    requires OccursAt(s, p, k)
    ensures s == s[..k] + p + s[k + |p|..]
  {
    assert s[k..k + |p|] == p;
    assert s == s[..k] + s[k..k + |p|] + s[k + |p|..];
  }

  /** `s.split(sep, 1)[1]` when `sep in s`: everything after the first `sep`. */
  function AfterFirst(s: string, sep: string): (r: string)
    requires |sep| > 0 && Contains(s, sep)
    ensures |r| + |sep| <= |s| && r == s[|s| - |r|..]
    ensures Split(s, sep) == [s[..|s| - |r| - |sep|]] + Split(r, sep)
  {
    var k := Find(s, sep);
    var r := s[k + |sep|..];
    assert |s| - |r| - |sep| == k;
    assert Split(s, sep) == [s[..k]] + Split(r, sep);
    r
  }

  /** `s.replace(p, '')` for a non-empty `p`: every non-overlapping occurrence
      of `p`, scanned from the left, is deleted; nothing is rescanned. */
  function Remove(s: string, p: string): (r: string)
    requires |p| > 0
    ensures |r| <= |s|
    ensures forall c :: c in r ==> c in s
    decreases |s|
  {
    var k := Find(s, p);
    if k < 0 then s
    else
      var rest := Remove(s[k + |p|..], p);
      assert forall c :: c in rest ==> c in s[k + |p|..];
      s[..k] + rest
  }

  /** Deleting a one-character pattern leaves no copy of that character. */
  lemma {:induction false} RemoveDropsChar(s: string, c: char)
    ensures c !in Remove(s, [c])
    decreases |s|
  {
    var k := Find(s, [c]);
    if k < 0 {
      forall i | 0 <= i < |s| ensures s[i] != c {
        assert !OccursAt(s, [c], i);
        assert s[i..i + 1] == [s[i]];
      }
    } else {
      RemoveDropsChar(s[k + 1..], c);
      forall i | 0 <= i < k ensures s[i] != c {
        assert !OccursAt(s, [c], i);
        assert s[i..i + 1] == [s[i]];
      }
    }
  }

  /** The decimal digit for `d`. */
  function Digit(d: nat): (c: char)
    requires d < 10
    ensures '0' <= c <= '9' && (c as int) - ('0' as int) == d
  {
    (('0' as int) + d) as char
  }

  predicate IsDigits(s: string) {
    forall i :: 0 <= i < |s| ==> '0' <= s[i] <= '9'
  }

  /** `str(n)` in Python, `${n}` in JavaScript: the decimal numeral of `n`. */
  function Decimal(n: nat): (r: string)
    ensures |r| >= 1 && IsDigits(r)
    ensures n >= 10 ==> |r| >= 2
  {
    if n < 10 then [Digit(n)] else Decimal(n / 10) + [Digit(n % 10)]
  }

  /** The number a string of decimal digits denotes. */
  function DecimalValue(s: string): nat
    requires IsDigits(s)
  {
    if s == [] then 0
    else DecimalValue(s[..|s| - 1]) * 10 + ((s[|s| - 1] as int) - ('0' as int))
  }

  /** Reading a numeral back gives the number it was written from. */
  lemma {:induction false} DecimalRoundTrip(n: nat)
    ensures DecimalValue(Decimal(n)) == n
  {
    if n >= 10 {
      DecimalRoundTrip(n / 10);
      var s := Decimal(n);
      assert s[..|s| - 1] == Decimal(n / 10);
    }
  }

  /** Different numbers are written differently. */
  lemma DecimalInjective(a: nat, b: nat)
    ensures Decimal(a) == Decimal(b) ==> a == b
  {
    DecimalRoundTrip(a);
    DecimalRoundTrip(b);
  }

  /** The text of `lines`, each followed by a newline, as a string built by
      appending `line + '\n'` in turn. */
  function Unlines(lines: seq<string>): string {
    if lines == [] then [] else lines[0] + "\n" + Unlines(lines[1..])
  }

  lemma {:induction false} UnlinesAppend(a: seq<string>, b: seq<string>)
    ensures Unlines(a + b) == Unlines(a) + Unlines(b)
  {
    if a == [] {
      assert a + b == b;
    } else {
      UnlinesAppend(a[1..], b);
      assert (a + b)[1..] == a[1..] + b;
    }
  }

  /** Appending one line to the text. */
  lemma UnlinesSnoc(lines: seq<string>, l: string)
    ensures Unlines(lines + [l]) == Unlines(lines) + l + "\n"
  {
    UnlinesAppend(lines, [l]);
    assert [l][1..] == [];
    assert Unlines([l]) == l + "\n" + Unlines([]);
  }

  predicate NoNewline(s: string) {
    '\n' !in s
  }

  /** A string with an occurrence of `p` contains `p`. */
  lemma OccursContains(s: string, p: string, k: int)
    requires |p| > 0 && OccursAt(s, p, k)
    ensures Contains(s, p)
  {
  }

  /** An occurrence with none before it is the one `find` reports. */
  lemma FindIs(s: string, p: string, k: int)
    requires |p| > 0 && OccursAt(s, p, k)
    requires forall i :: 0 <= i < k ==> !OccursAt(s, p, i)
    ensures Find(s, p) == k
  {
  }

  /** In `l + [c] + rest` with no `c` in `l`, the first `c` ends `l`. */
  lemma FirstOccurrence(l: string, c: char, rest: string)
    requires c !in l
    ensures Find(l + [c] + rest, [c]) == |l|
  {
    var s := l + [c] + rest;
    assert OccursAt(s, [c], |l|);
    forall i | 0 <= i < |l| ensures !OccursAt(s, [c], i) {
      assert s[i] == l[i];
    }
  }

  /** Splitting on a one-character separator cuts at its first occurrence. */
  lemma SplitAtChar(l: string, c: char, rest: string)
    requires c !in l
    ensures Split(l + [c] + rest, [c]) == [l] + Split(rest, [c])
  {
    var s := l + [c] + rest;
    FirstOccurrence(l, c, rest);
    assert s[..|l|] == l && s[|l| + 1..] == rest;
  }

  /** A string without the separator splits into itself. */
  lemma SplitNoChar(s: string, c: char)
    requires c !in s
    ensures Split(s, [c]) == [s]
  {
    forall i | 0 <= i < |s| ensures !OccursAt(s, [c], i) {
      assert s[i..i + 1] == [s[i]];
    }
  }

  /** Splitting the text on newlines gives back the lines (and the empty piece
      after the final newline), provided no line holds a newline itself. */
  lemma {:induction false} SplitUnlines(lines: seq<string>)
    requires forall i :: 0 <= i < |lines| ==> NoNewline(lines[i])
    ensures Split(Unlines(lines), "\n") == lines + [""]
  {
    if lines == [] {
      SplitNoChar("", '\n');
    } else {
      var rest := Unlines(lines[1..]);
      assert Unlines(lines) == lines[0] + ['\n'] + rest;
      assert Split(rest, "\n") == lines[1..] + [""] by { SplitUnlines(lines[1..]); }
      assert Split(Unlines(lines), "\n") == [lines[0]] + Split(rest, "\n") by {
        SplitAtChar(lines[0], '\n', rest);
      }
      assert [lines[0]] + (lines[1..] + [""]) == lines + [""];
    }
  }

  /** A row of three separator-free fields splits back into those fields. */
  lemma SplitThree(a: string, b: string, c: string, sep: char)
    requires sep !in a && sep !in b && sep !in c
    ensures Split(a + [sep] + b + [sep] + c, [sep]) == [a, b, c]
  {
    var bc := b + [sep] + c;
    assert a + [sep] + b + [sep] + c == a + [sep] + bc;
    SplitAtChar(a, sep, bc);
    SplitAtChar(b, sep, c);
    SplitNoChar(c, sep);
    assert Split(bc, [sep]) == [b, c];
    assert Split(a + [sep] + bc, [sep]) == [a] + [b, c];
  }

  /** No piece of a split on a one-character separator holds that character. */
  lemma {:induction false} SplitPiecesFree(s: string, c: char)
    ensures forall k :: 0 <= k < |Split(s, [c])| ==> c !in Split(s, [c])[k]
    decreases |s|
  {
    var k := Find(s, [c]);
    if k < 0 {
      forall i | 0 <= i < |s| ensures s[i] != c {
        assert !OccursAt(s, [c], i);
        assert s[i..i + 1] == [s[i]];
      }
    } else {
      SplitPiecesFree(s[k + 1..], c);
      forall i | 0 <= i < k ensures s[i] != c {
        assert !OccursAt(s, [c], i);
        assert s[i..i + 1] == [s[i]];
      }
      assert Split(s, [c]) == [s[..k]] + Split(s[k + 1..], [c]);
    }
  }

  /** Stripping a trailing character a string does not hold changes nothing. */
  lemma RStripCharAbsent(s: string, c: char)
    requires c !in s
    ensures RStripChar(s, c) == s
  {
  }

  /** A string with no whitespace at either end. */
  predicate Trimmed(s: string) {
    s != [] && !IsSpace(s[0]) && !IsSpace(s[|s| - 1])
  }

  /** Stripping a trimmed string, or one with a single space added on either
      side or both, gives the trimmed string. */
  lemma StripPadded(s: string)
    requires Trimmed(s)
    ensures Strip(s) == s && Strip(s + " ") == s && Strip(" " + s) == s && Strip(" " + s + " ") == s
  {
    assert LStrip(s) == s;
    assert RStrip(s) == s;
    assert LStrip(s + " ") == s + " ";
    assert (s + " ")[..|s|] == s;
    assert RStrip(s + " ") == s;
    assert (" " + s)[1..] == s;
    assert LStrip(" " + s) == s;
    assert (" " + s + " ")[1..] == s + " ";
    assert LStrip(" " + s + " ") == s + " ";
  }

  /** A pattern without a space does not occur across a space. */
  lemma NotAcrossSpace(x: string, p: string, j: int)
    requires 0 <= j < |x| && x[j] == ' ' && ' ' !in p
    ensures forall i :: i <= j < i + |p| ==> !OccursAt(x, p, i)
  {
    forall i | i <= j < i + |p| ensures !OccursAt(x, p, i) {
      if 0 <= i && i + |p| <= |x| {
        assert x[i..i + |p|][j - i] == ' ';
      }
    }
  }

  /** A pattern that does not occur in `n` does not occur inside a copy of
      `n` placed at `off`. */
  lemma NotInside(x: string, n: string, off: int, p: string)
    requires 0 <= off && off + |n| <= |x| && x[off..off + |n|] == n && |p| > 0 && !Contains(n, p)
    ensures forall i :: off <= i && i + |p| <= off + |n| ==> !OccursAt(x, p, i)
  {
    forall i | off <= i && i + |p| <= off + |n| ensures !OccursAt(x, p, i) {
      var w := n[i - off..i - off + |p|];
      forall t | 0 <= t < |p| ensures x[i..i + |p|][t] == w[t] {
        assert w[t] == n[i - off + t] == x[off..off + |n|][i - off + t] == x[i + t];
      }
      assert x[i..i + |p|] == w;
      assert !OccursAt(n, p, i - off);
    }
  }

  /** Without `p` in `s`, deleting `p` changes nothing. */
  lemma RemoveAbsent(s: string, p: string)
    requires |p| > 0 && !Contains(s, p)
    ensures Remove(s, p) == s
  {
  }

  /** A string without the character `c` does not contain `[c]`. */
  lemma CharAbsent(s: string, c: char)
    requires c !in s
    ensures !Contains(s, [c])
  {
    forall i | 0 <= i < |s| ensures !OccursAt(s, [c], i) {
      assert s[i..i + 1] == [s[i]];
    }
  }

  /** A pattern one of whose characters `s` lacks does not occur in `s`. */
  lemma MissingChar(s: string, p: string, t: int)
    requires 0 <= t < |p| && p[t] !in s
    ensures !Contains(s, p)
  {
    forall i | 0 <= i ensures !OccursAt(s, p, i) {
      if i + |p| <= |s| {
        assert s[i..i + |p|][t] == s[i + t];
      }
    }
  }
}
