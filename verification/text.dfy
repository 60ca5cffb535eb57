/** The handful of Python string operations the pipeline relies on
    (`in`, `split`, `join`, `replace`, `strip`, `upper`, `str(int)`),
    restated on `seq<char>` together with the facts the other modules need. */
module Text {
  import opened Wrappers

  // ---------------------------------------------------------------------------
  // Searching
  // ---------------------------------------------------------------------------

  /** `pat` occurs in `s` starting at index `i`. */
  predicate OccursAt(s: string, pat: string, i: int) {
    0 <= i && i + |pat| <= |s| && s[i..i + |pat|] == pat
  }

  /** Python's `pat in s`. */
  predicate Contains(s: string, pat: string) {
    exists i | 0 <= i <= |s| - |pat| :: OccursAt(s, pat, i)
  }

  /** The first index at or after `from` where `pat` occurs in `s`. */
  function FindFrom(s: string, pat: string, from: nat): (r: Option<nat>)
    ensures r.Some? ==> from <= r.value && OccursAt(s, pat, r.value)
    ensures r.Some? ==> forall j :: from <= j < r.value ==> !OccursAt(s, pat, j)
    ensures r.None? ==> forall j :: from <= j ==> !OccursAt(s, pat, j)
    decreases |s| - from
  {
    if from + |pat| > |s| then None
    else if s[from..from + |pat|] == pat then Some(from)
    else FindFrom(s, pat, from + 1)
  }

  /** Python's `s.find(pat)`, with `None` for -1. */
  function Find(s: string, pat: string): Option<nat> {
    FindFrom(s, pat, 0)
  }

  lemma FindNoneMeansAbsent(s: string, pat: string)
    ensures Find(s, pat).None? <==> !Contains(s, pat)
  {
    if Find(s, pat).Some? {
      var i := Find(s, pat).value;
      assert OccursAt(s, pat, i);
    }
  }

  /** `FindFrom` returns the first occurrence at or after `from`. */
  lemma FindFromFirst(s: string, pat: string, from: nat, k: nat)
    requires from <= k && OccursAt(s, pat, k)
    requires forall j :: from <= j < k ==> !OccursAt(s, pat, j)
    ensures FindFrom(s, pat, from) == Some(k)
    decreases k - from
  {
    if from < k {
      assert !OccursAt(s, pat, from);
      FindFromFirst(s, pat, from + 1, k);
    }
  }

  /** When `k` is the only place `pat` occurs, `Find` returns it. */
  lemma FindUnique(s: string, pat: string, k: nat)
    requires OccursAt(s, pat, k)
    requires forall j :: OccursAt(s, pat, j) ==> j == k
    ensures Find(s, pat) == Some(k)
  {
  }

  // ---------------------------------------------------------------------------
  // Joining and splitting
  // ---------------------------------------------------------------------------

  /** Python's `sep.join(parts)`. */
  function Join(parts: seq<string>, sep: string): string
    decreases |parts|
  {
    if |parts| == 0 then ""
    else if |parts| == 1 then parts[0]
    else parts[0] + sep + Join(parts[1..], sep)
  }

  /** Python's `s.split(sep)` for a non-empty separator (Python refuses an empty one). */
  function Split(s: string, sep: string): (parts: seq<string>)
    requires |sep| > 0
    ensures |parts| >= 1
    decreases |s|
  {
    match Find(s, sep)
    case None => [s]
    case Some(i) => [s[..i]] + Split(s[i + |sep|..], sep)
  }

  /** Splitting loses nothing: joining the pieces with the same separator
      gives the text back. */
  lemma {:induction false} SplitJoin(s: string, sep: string)
    requires |sep| > 0
    ensures Join(Split(s, sep), sep) == s
    decreases |s|
  {
    match Find(s, sep)
    case None =>
    case Some(i) =>
      var rest := Split(s[i + |sep|..], sep);
      SplitJoin(s[i + |sep|..], sep);
      assert s[i..i + |sep|] == sep;
      assert s == s[..i] + sep + s[i + |sep|..];
      JoinCons(s[..i], rest, sep);
  }

  lemma JoinCons(head: string, rest: seq<string>, sep: string)
    requires |rest| >= 1
    ensures Join([head] + rest, sep) == head + sep + Join(rest, sep)
  {
    assert ([head] + rest)[1..] == rest;
  }

  /** `s.split(sep)[k]`, or `None` where Python raises `IndexError`. */
  function Piece(s: string, sep: string, k: nat): Option<string>
    requires |sep| > 0
  {
    var parts := Split(s, sep);
    if k < |parts| then Some(parts[k]) else None
  }

  /** `s.split(sep)[-1]`: the text after the last separator. */
  function LastPiece(s: string, sep: string): (r: string)
    requires |sep| > 0
    ensures !Contains(s, sep) ==> r == s
  {
    var parts := Split(s, sep);
    FindNoneMeansAbsent(s, sep);
    parts[|parts| - 1]
  }

  /** The number of columns `str.split(sep, expand=True)` produces: the most
      pieces any value splits into (none for an empty selection). */
  function Widest(ds: seq<string>, sep: string): (w: nat)
    requires |sep| > 0
    ensures forall i :: 0 <= i < |ds| ==> |Split(ds[i], sep)| <= w
    ensures |ds| > 0 ==> exists i :: 0 <= i < |ds| && |Split(ds[i], sep)| == w
    decreases |ds|
  {
    if |ds| == 0 then 0
    else
      var w := Widest(ds[1..], sep);
      assert forall i :: 1 <= i < |ds| ==> ds[i] == ds[1..][i - 1];
      var n := |Split(ds[0], sep)|;
      if n >= w then n else w
  }

  /** The last word after a space is what `split(' ')[-1]` reads back. */
  lemma {:induction false} LastPieceOf(u: string, x: string)
    requires NoSpace(x)
    ensures LastPiece(u + " " + x, " ") == x
    decreases |u|
  {
    var s := u + " " + x;
    NoSpaceAbsent(x);
    FindNoneMeansAbsent(x, " ");
    assert Split(x, " ") == [x];
    match Find(u, " ")
    case None =>
      forall j | 0 <= j < |u|
        ensures !OccursAt(s, " ", j)
      {
        assert !OccursAt(u, " ", j);
        assert s[j..j + 1] == u[j..j + 1];
      }
      assert OccursAt(s, " ", |u|);
      FindFromFirst(s, " ", 0, |u|);
      assert s[|u| + 1..] == x;
    case Some(i) =>
      assert OccursAt(u, " ", i);
      assert u[i..i + 1] == s[i..i + 1];
      forall j | 0 <= j < i
        ensures !OccursAt(s, " ", j)
      {
        assert !OccursAt(u, " ", j);
        assert s[j..j + 1] == u[j..j + 1];
      }
      FindFromFirst(s, " ", 0, i);
      assert s[i + 1..] == u[i + 1..] + " " + x;
      LastPieceOf(u[i + 1..], x);
  }

  lemma NoSpaceAbsent(x: string)
    requires NoSpace(x)
    ensures !Contains(x, " ")
  {
    forall j | 0 <= j < |x|
      ensures !OccursAt(x, " ", j)
    {
      assert x[j..j + 1] == [x[j]];
    }
  }

  /** `p + sep + t` splits back into exactly `[p, t]` when the separator
      occurs in it nowhere but between the two. */
  lemma SplitTwo(p: string, sep: string, t: string)
    requires |sep| > 0
    requires forall j :: OccursAt(p + sep + t, sep, j) ==> j == |p|
    ensures Split(p + sep + t, sep) == [p, t]
  {
    var s := p + sep + t;
    assert s[|p|..|p| + |sep|] == sep;
    FindUnique(s, sep, |p|);
    assert s[..|p|] == p;
    assert s[|p| + |sep|..] == t;
    forall j | OccursAt(t, sep, j)
      ensures false
    {
      assert s[|p| + |sep| + j..|p| + |sep| + j + |sep|] == t[j..j + |sep|];
      assert OccursAt(s, sep, |p| + |sep| + j);
    }
    assert Find(t, sep).None?;
  }

  /** The part of `s` before the first `sep` (`s.split(sep)[0]`). */
  function BeforeSep(s: string, sep: string): (r: string)
    requires |sep| > 0
    ensures |r| <= |s| && r == s[..|r|]
    ensures !Contains(s, sep) ==> r == s
  {
    FindNoneMeansAbsent(s, sep);
    match Find(s, sep)
    case None => s
    case Some(i) => s[..i]
  }

  /** Appending a suffix that starts with the separator cuts exactly at it. */
  lemma BeforeSepOfSuffix(p: string, sep: string, rest: string)
    requires |sep| > 0
    requires forall j :: OccursAt(p + sep + rest, sep, j) ==> j >= |p|
    ensures BeforeSep(p + sep + rest, sep) == p
  {
    var s := p + sep + rest;
    assert s[|p|..|p| + |sep|] == sep;
    assert OccursAt(s, sep, |p|);
    var r := Find(s, sep);
    assert r.Some?;
    assert r.value == |p|;
    assert s[..|p|] == p;
  }

  // ---------------------------------------------------------------------------
  // Replacing
  // ---------------------------------------------------------------------------

  /** Python's `s.replace(old, new)`: a left-to-right scan replacing
      non-overlapping occurrences. */
  function ReplaceAll(s: string, pat: string, rep: string): (r: string)
    requires |pat| > 0
    ensures !Contains(s, pat) ==> r == s
    decreases |s|
  {
    if |s| < |pat| then s
    else if s[..|pat|] == pat then
      assert OccursAt(s, pat, 0);
      rep + ReplaceAll(s[|pat|..], pat, rep)
    else
      ContainsTail(s, pat);
      [s[0]] + ReplaceAll(s[1..], pat, rep)
  }

  /** A replacement of the same length as the pattern keeps the length. */
  lemma {:induction false} ReplaceKeepsLength(s: string, pat: string, rep: string)
    requires |pat| > 0 && |rep| == |pat|
    ensures |ReplaceAll(s, pat, rep)| == |s|
    decreases |s|
  {
    if |s| >= |pat| {
      if s[..|pat|] == pat {
        ReplaceKeepsLength(s[|pat|..], pat, rep);
      } else {
        ReplaceKeepsLength(s[1..], pat, rep);
      }
    }
  }

  /** When the first occurrence of `pat` is at `k` and none starts after
      it, the scan replaces exactly that one occurrence. */
  lemma {:induction false} ReplaceSingle(s: string, k: nat, pat: string, rep: string)
    requires |pat| > 0 && OccursAt(s, pat, k)
    requires forall i :: 0 <= i < k ==> !OccursAt(s, pat, i)
    requires !Contains(s[k + |pat|..], pat)
    ensures ReplaceAll(s, pat, rep) == s[..k] + rep + s[k + |pat|..]
    decreases k
  {
    if k == 0 {
      assert s[..|pat|] == pat;
    } else {
      ShiftedFirst(s, k, pat);
      ReplaceSingle(s[1..], k - 1, pat, rep);
      assert !OccursAt(s, pat, 0);
      ReplaceStep(s, k, pat, rep);
    }
  }

  /** The hypotheses of `ReplaceSingle`, one character further on. */
  lemma ShiftedFirst(s: string, k: nat, pat: string)
    requires k > 0 && OccursAt(s, pat, k)
    requires forall i :: 0 <= i < k ==> !OccursAt(s, pat, i)
    requires !Contains(s[k + |pat|..], pat)
    ensures OccursAt(s[1..], pat, k - 1)
    ensures forall i :: 0 <= i < k - 1 ==> !OccursAt(s[1..], pat, i)
    ensures !Contains(s[1..][k - 1 + |pat|..], pat)
  {
    OccursShift(s, pat, k - 1);
    forall i | 0 <= i < k - 1
      ensures !OccursAt(s[1..], pat, i)
    {
      OccursShift(s, pat, i);
    }
    assert s[1..][k - 1 + |pat|..] == s[k + |pat|..];
  }

  /** One step of the scan past a character that does not start `pat`. */
  lemma ReplaceStep(s: string, k: nat, pat: string, rep: string)
    requires 0 < k && |pat| > 0 && k + |pat| <= |s| && !OccursAt(s, pat, 0)
    requires ReplaceAll(s[1..], pat, rep) == s[1..][..k - 1] + rep + s[1..][k - 1 + |pat|..]
    ensures ReplaceAll(s, pat, rep) == s[..k] + rep + s[k + |pat|..]
  {
    ReplaceSkip(s, pat, rep);
    SpliceCons(s, k, |pat|, rep, ReplaceAll(s[1..], pat, rep));
  }

  lemma ReplaceSkip(s: string, pat: string, rep: string)
    requires |pat| > 0 && |pat| <= |s| && !OccursAt(s, pat, 0)
    ensures ReplaceAll(s, pat, rep) == [s[0]] + ReplaceAll(s[1..], pat, rep)
  {
    assert s[..|pat|] != pat;
  }

  lemma SpliceCons(s: string, k: nat, n: nat, rep: string, t: string)
    requires 0 < k && k + n <= |s|
    requires t == s[1..][..k - 1] + rep + s[1..][k - 1 + n..]
    ensures [s[0]] + t == s[..k] + rep + s[k + n..]
  {
    assert s[..k] == [s[0]] + s[1..][..k - 1];
    assert s[1..][k - 1 + n..] == s[k + n..];
  }

  /** Dropping the first character moves every occurrence one place left. */
  lemma OccursShift(s: string, pat: string, i: nat)
    requires |s| > 0
    ensures OccursAt(s[1..], pat, i) <==> OccursAt(s, pat, i + 1)
  {
    if i + |pat| <= |s[1..]| {
      assert s[1..][i..i + |pat|] == s[i + 1..i + 1 + |pat|];
    }
  }

  /** Deleting a single character removes every copy of it and keeps every
      other character, so no copy can be re-formed. */
  lemma {:induction false} DeleteChar(s: string, c: char)
    ensures forall x :: x in ReplaceAll(s, [c], "") <==> x in s && x != c
    decreases |s|
  {
    if |s| > 0 {
      DeleteChar(s[1..], c);
      assert forall x :: x in s <==> x == s[0] || x in s[1..];
      if s[..1] == [c] {
        assert s[0] == c;
      } else {
        assert s[0] != c;
      }
    }
  }

  /** Deleting a pattern adds no character that was not there. */
  lemma {:induction false} DeleteKeepsChars(s: string, pat: string)
    requires |pat| > 0
    ensures forall x :: x in ReplaceAll(s, pat, "") ==> x in s
    decreases |s|
  {
    if |s| >= |pat| {
      if s[..|pat|] == pat {
        DeleteKeepsChars(s[|pat|..], pat);
        assert forall x :: x in s[|pat|..] ==> x in s;
      } else {
        DeleteKeepsChars(s[1..], pat);
        assert forall x :: x in s[1..] ==> x in s;
      }
    }
  }

  /** A one-character pattern occurs exactly when the character does. */
  lemma ContainsChar(s: string, c: char)
    ensures Contains(s, [c]) <==> c in s
  {
    if c in s {
      var i :| 0 <= i < |s| && s[i] == c;
      assert OccursAt(s, [c], i);
    }
    if Contains(s, [c]) {
      var i :| 0 <= i <= |s| - 1 && OccursAt(s, [c], i);
      assert s[i..i + 1] == [c];
      assert s[i] == c;
    }
  }

  lemma ContainsTail(s: string, pat: string)
    requires |s| > 0
    ensures Contains(s[1..], pat) ==> Contains(s, pat)
  {
    if Contains(s[1..], pat) {
      var j :| 0 <= j <= |s[1..]| - |pat| && OccursAt(s[1..], pat, j);
      assert s[1..][j..j + |pat|] == s[j + 1..j + 1 + |pat|];
      assert OccursAt(s, pat, j + 1);
    }
  }

  // ---------------------------------------------------------------------------
  // Ordering (Python's `<` on `str`: code-point lexicographic)
  // ---------------------------------------------------------------------------

  predicate StrLe(a: string, b: string)
    decreases |a|
  {
    |a| == 0 || (|b| > 0 && (a[0] < b[0] || (a[0] == b[0] && StrLe(a[1..], b[1..]))))
  }

  lemma StrLeTotal(a: string, b: string)
    ensures StrLe(a, b) || StrLe(b, a)
    decreases |a|
  {
    if |a| > 0 && |b| > 0 && a[0] == b[0] {
      StrLeTotal(a[1..], b[1..]);
    }
  }

  lemma StrLeTrans(a: string, b: string, c: string)
    requires StrLe(a, b) && StrLe(b, c)
    ensures StrLe(a, c)
    decreases |a|
  {
    if |a| > 0 && a[0] == b[0] && b[0] == c[0] {
      StrLeTrans(a[1..], b[1..], c[1..]);
    }
  }

  lemma StrLeAntisym(a: string, b: string)
    requires StrLe(a, b) && StrLe(b, a)
    ensures a == b
    decreases |a|
  {
    if |a| > 0 {
      StrLeAntisym(a[1..], b[1..]);
      assert a == [a[0]] + a[1..];
      assert b == [b[0]] + b[1..];
    }
  }

  // ---------------------------------------------------------------------------
  // Characters: whitespace, case, digits
  // ---------------------------------------------------------------------------

  /** The ASCII characters Python's `str.strip()` removes. */
  predicate IsSpaceChar(c: char) {
    c == ' ' || c == '\t' || c == '\n' || c == '\r' || c as int == 11 || c as int == 12
  }

  /** `not s.strip()`: the string holds nothing but whitespace. */
  predicate IsBlank(s: string) {
    forall i :: 0 <= i < |s| ==> IsSpaceChar(s[i])
  }

  function StripLeft(s: string): (r: string)
    ensures |r| <= |s| && r == s[|s| - |r|..]
    ensures |r| > 0 ==> !IsSpaceChar(r[0])
    decreases |s|
  {
    if |s| > 0 && IsSpaceChar(s[0]) then StripLeft(s[1..]) else s
  }

  function StripRight(s: string): (r: string)
    ensures |r| <= |s| && r == s[..|r|]
    ensures |r| > 0 ==> !IsSpaceChar(r[|r| - 1])
    decreases |s|
  {
    if |s| > 0 && IsSpaceChar(s[|s| - 1]) then StripRight(s[..|s| - 1]) else s
  }

  /** Python's `s.strip()` (ASCII whitespace). */
  function Strip(s: string): (r: string)
    ensures |r| > 0 ==> !IsSpaceChar(r[0]) && !IsSpaceChar(r[|r| - 1])
  {
    StripRight(StripLeft(s))
  }

  function UpperChar(c: char): char {
    if 'a' <= c <= 'z' then (c as int - 32) as char else c
  }

  /** Python's `s.upper()` on ASCII letters. */
  function Upper(s: string): (r: string)
    ensures |r| == |s|
    ensures forall i :: 0 <= i < |s| ==> r[i] == UpperChar(s[i])
  {
    seq(|s|, i requires 0 <= i < |s| => UpperChar(s[i]))
  }

  predicate IsDigit(c: char) {
    '0' <= c <= '9'
  }

  predicate AllDigits(s: string) {
    forall i :: 0 <= i < |s| ==> IsDigit(s[i])
  }

  predicate NoSpace(s: string) {
    forall i :: 0 <= i < |s| ==> s[i] != ' '
  }

  function DigitChar(d: nat): (c: char)
    requires d < 10
    ensures IsDigit(c)
  {
    (48 + d) as char
  }

  function DigitValue(c: char): (d: nat)
    requires IsDigit(c)
    ensures d < 10
  {
    c as int - 48
  }

  /** Decimal rendering of a natural number, as `str(n)`. */
  function NatToString(n: nat): (s: string)
    ensures |s| >= 1 && AllDigits(s)
    decreases n
  {
    if n < 10 then [DigitChar(n)] else NatToString(n / 10) + [DigitChar(n % 10)]
  }

  function ParseNat(s: string): nat
    requires |s| >= 1 && AllDigits(s)
    decreases |s|
  {
    if |s| == 1 then DigitValue(s[0])
    else ParseNat(s[..|s| - 1]) * 10 + DigitValue(s[|s| - 1])
  }

  lemma {:induction false} ParseNatOfNatToString(n: nat)
    ensures ParseNat(NatToString(n)) == n
    decreases n
  {
    if n >= 10 {
      var s := NatToString(n);
      assert s[..|s| - 1] == NatToString(n / 10);
      ParseNatOfNatToString(n / 10);
    }
  }

  /** Decimal rendering of an integer, as Python's `str(i)`. */
  function IntToString(i: int): (s: string)
    ensures |s| >= 1 && NoSpace(s)
  {
    if i < 0 then "-" + NatToString(-i) else NatToString(i)
  }

  /** Python's `int(s)` on the strings `IntToString` produces; `None` elsewhere. */
  function ParseInt(s: string): Option<int> {
    if |s| >= 2 && s[0] == '-' && AllDigits(s[1..]) then
      var n: int := ParseNat(s[1..]);
      Some(-n)
    else if |s| >= 1 && AllDigits(s) then Some(ParseNat(s))
    else None
  }

  /** Digits with single underscores between them, as `int()` reads them
      (`1_000`). */
  predicate IsDigitRun(u: string) {
    && |u| >= 1 && IsDigit(u[0]) && IsDigit(u[|u| - 1])
    && (forall i :: 0 <= i < |u| ==> IsDigit(u[i]) || u[i] == '_')
    && (forall i :: 0 <= i < |u| - 1 ==> IsDigit(u[i]) || IsDigit(u[i + 1]))
  }

  /** The digits of a run, underscores dropped. */
  function DropUnderscores(u: string): (r: string)
    ensures (forall i :: 0 <= i < |u| ==> IsDigit(u[i]) || u[i] == '_') ==> AllDigits(r)
    ensures |u| >= 1 && IsDigit(u[0]) ==> |r| >= 1
    ensures AllDigits(u) ==> r == u
    decreases |u|
  {
    if |u| == 0 then []
    else
      assert forall i :: 1 <= i < |u| ==> u[1..][i - 1] == u[i];
      (if u[0] == '_' then [] else [u[0]]) + DropUnderscores(u[1..])
  }

  /** Python's `int(s)` on ASCII text: surrounding whitespace is stripped,
      one leading `+` or `-` gives the sign, and single underscores may
      separate the digits. */
  function PyInt(s: string): Option<int> {
    var t := Strip(s);
    if |t| >= 1 && (t[0] == '+' || t[0] == '-') then
      if IsDigitRun(t[1..]) then
        var n: int := ParseNat(DropUnderscores(t[1..]));
        Some(if t[0] == '-' then -n else n)
      else None
    else if IsDigitRun(t) then Some(ParseNat(DropUnderscores(t)))
    else None
  }

  /** Text without whitespace at either end strips to itself. */
  lemma StripUnpadded(s: string)
    requires |s| >= 1 && !IsSpaceChar(s[0]) && !IsSpaceChar(s[|s| - 1])
    ensures Strip(s) == s
  {
    assert StripLeft(s) == s;
  }

  /** `int()` reads everything `ParseInt` reads, with the same value. */
  lemma PyIntExtendsParseInt(s: string)
    requires ParseInt(s).Some?
    ensures PyInt(s) == ParseInt(s)
  {
    StripUnpadded(s);
    if s[0] == '-' {
      assert DropUnderscores(s[1..]) == s[1..];
    } else {
      assert DropUnderscores(s) == s;
    }
  }

  /** A `+` sign is read as no sign at all. */
  lemma PyIntPlus(n: nat)
    ensures PyInt("+" + NatToString(n)) == Some(n)
  {
    var u := NatToString(n);
    var t := "+" + u;
    StripUnpadded(t);
    assert t[1..] == u;
    assert DropUnderscores(u) == u;
    ParseNatOfNatToString(n);
  }

  /** Stripping the front of `s + t` strips `s` away entirely when it is
      blank and stops inside it otherwise. */
  lemma {:induction false} StripLeftAppend(s: string, t: string)
    ensures StripLeft(s + t) == if IsBlank(s) then StripLeft(t) else StripLeft(s) + t
    decreases |s|
  {
    if |s| == 0 {
      assert s + t == t;
    } else if IsSpaceChar(s[0]) {
      SpaceHead(s, t);
      StripLeftAppend(s[1..], t);
    } else {
      assert (s + t)[0] == s[0];
      assert !IsBlank(s);
    }
  }

  /** A leading whitespace character is dropped, from `s` as from `s + t`. */
  lemma SpaceHead(s: string, t: string)
    requires |s| > 0 && IsSpaceChar(s[0])
    ensures StripLeft(s + t) == StripLeft(s[1..] + t)
    ensures StripLeft(s) == StripLeft(s[1..])
    ensures IsBlank(s) == IsBlank(s[1..])
  {
    assert (s + t)[0] == s[0];
    assert (s + t)[1..] == s[1..] + t;
    assert forall i :: 1 <= i < |s| ==> s[1..][i - 1] == s[i];
  }

  lemma StripLeftSpace(c: char, u: string)
    requires IsSpaceChar(c)
    ensures StripLeft([c] + u) == StripLeft(u)
  {
    assert ([c] + u)[1..] == u;
  }

  lemma StripRightSpace(l: string, c: char)
    requires IsSpaceChar(c)
    ensures StripRight(l + [c]) == StripRight(l)
  {
    assert (l + [c])[..|l|] == l;
  }

  /** A leading blank and a trailing newline are stripped away. */
  lemma StripPadded(s: string)
    ensures Strip(" " + s + "\n") == Strip(s)
  {
    assert " " + s + "\n" == [' '] + (s + ['\n']);
    StripLeftSpace(' ', s + ['\n']);
    StripLeftAppend(s, ['\n']);
    if IsBlank(s) {
      StripLeftAppend(s, []);
      assert s + [] == s;
      StripLeftSpace('\n', []);
      assert ['\n'] + [] == ['\n'];
    } else {
      StripRightSpace(StripLeft(s), '\n');
    }
  }

  /** Surrounding whitespace is ignored. */
  lemma PyIntPadded(s: string)
    ensures PyInt(" " + s + "\n") == PyInt(s)
  {
    StripPadded(s);
  }

  /** Dropping underscores works piecewise. */
  lemma {:induction false} DropUnderscoresAppend(x: string, y: string)
    ensures DropUnderscores(x + y) == DropUnderscores(x) + DropUnderscores(y)
    decreases |x|
  {
    if |x| > 0 {
      assert (x + y)[0] == x[0];
      assert (x + y)[1..] == x[1..] + y;
      DropUnderscoresAppend(x[1..], y);
    } else {
      assert x + y == y;
    }
  }

  lemma DigitRunJoin(a: string, b: string)
    requires |a| >= 1 && |b| >= 1 && AllDigits(a) && AllDigits(b)
    ensures IsDigitRun(a + ['_'] + b)
  {
    var u := a + ['_'] + b;
    assert forall i :: 0 <= i < |a| ==> u[i] == a[i];
    assert u[|a|] == '_';
    assert forall i :: |a| < i < |u| ==> u[i] == b[i - |a| - 1];
  }

  lemma DropUnderscoresJoin(a: string, b: string)
    requires AllDigits(a) && AllDigits(b)
    ensures DropUnderscores(a + ['_'] + b) == a + b
  {
    DropUnderscoresAppend(a + ['_'], b);
    DropUnderscoresAppend(a, ['_']);
    assert DropUnderscores(['_']) == [] by { assert ['_'][1..] == []; }
    assert a + [] == a;
  }

  /** A single underscore between digits is ignored. */
  lemma PyIntUnderscore(a: string, b: string)
    requires |a| >= 1 && |b| >= 1 && AllDigits(a) && AllDigits(b)
    ensures PyInt(a + "_" + b) == Some(ParseNat(a + b))
  {
    var u := a + ['_'] + b;
    assert u == a + "_" + b;
    assert u[0] == a[0] && u[|u| - 1] == b[|b| - 1];
    StripUnpadded(u);
    DigitRunJoin(a, b);
    DropUnderscoresJoin(a, b);
  }

  /** A doubled underscore is an error. */
  lemma PyIntDoubleUnderscore(a: string, b: string)
    requires |a| >= 1 && |b| >= 1 && AllDigits(a) && AllDigits(b)
    ensures PyInt(a + "__" + b) == None
  {
    var u := a + "__" + b;
    assert u[0] == a[0] && u[|u| - 1] == b[|b| - 1];
    StripUnpadded(u);
    assert u[|a|] == '_' && u[|a| + 1] == '_';
    assert !IsDigitRun(u);
  }

  /** Rendering an integer loses nothing: it parses back to itself. */
  lemma IntToStringRoundTrip(i: int)
    ensures ParseInt(IntToString(i)) == Some(i)
  {
    var s := IntToString(i);
    if i < 0 {
      var t := NatToString(-i);
      assert s == "-" + t;
      assert s[1..] == t;
      assert s[0] == '-';
      ParseNatOfNatToString(-i);
    } else {
      assert s == NatToString(i);
      ParseNatOfNatToString(i);
    }
  }

  lemma IntToStringInjective(a: int, b: int)
    requires IntToString(a) == IntToString(b)
    ensures a == b
  {
    IntToStringRoundTrip(a);
    IntToStringRoundTrip(b);
  }

  /** In `x + " " + u` with a space-free `x`, the first space is the one after `x`. */
  lemma FirstSpaceAfter(x: string, u: string)
    requires NoSpace(x)
    ensures Find(x + " " + u, " ") == Some(|x|)
  {
    var s := x + " " + u;
    assert s[|x|..|x| + 1] == " ";
    forall j | 0 <= j < |x|
      ensures !OccursAt(s, " ", j)
    {
      assert s[j..j + 1] == [x[j]];
    }
    FindFromFirst(s, " ", 0, |x|);
  }

  /** Two strings without spaces, each followed by a space, can only be
      glued into the same text when they are equal. */
  lemma SpaceDelimitedPrefix(x: string, u: string, y: string, v: string)
    requires NoSpace(x) && NoSpace(y)
    requires x + " " + u == y + " " + v
    ensures x == y && u == v
  {
    FirstSpaceAfter(x, u);
    FirstSpaceAfter(y, v);
    var s := x + " " + u;
    assert |x| == |y|;
    assert x == s[..|x|] == y;
    assert u == s[|x| + 1..] == v;
  }

  /** Length of the run of non-space characters that ends `s`. */
  function TrailingWordLength(s: string): (n: nat)
    ensures n <= |s|
    ensures NoSpace(s[|s| - n..])
    decreases |s|
  {
    if |s| == 0 || s[|s| - 1] == ' ' then 0
    else
      var n := TrailingWordLength(s[..|s| - 1]);
      assert s[|s| - (n + 1)..] == s[..|s| - 1][|s| - 1 - n..] + [s[|s| - 1]];
      n + 1
  }

  lemma {:induction false} TrailingWordOf(u: string, x: string)
    requires NoSpace(x)
    ensures TrailingWordLength(u + " " + x) == |x|
    decreases |x|
  {
    var s := u + " " + x;
    if |x| == 0 {
      assert s[|s| - 1] == ' ';
    } else {
      assert s[..|s| - 1] == u + " " + x[..|x| - 1];
      assert s[|s| - 1] == x[|x| - 1];
      TrailingWordOf(u, x[..|x| - 1]);
    }
  }

  /** The run of non-space characters that ends `s`. */
  function LastWord(s: string): string {
    s[|s| - TrailingWordLength(s)..]
  }

  /** A space-free word after a space is exactly what `LastWord` reads back. */
  lemma LastWordOf(u: string, x: string)
    requires NoSpace(x)
    ensures LastWord(u + " " + x) == x
  {
    TrailingWordOf(u, x);
    var s := u + " " + x;
    assert s[|s| - |x|..] == x;
  }

  /** `sep.join(parts + [last])` appends `sep + last` to the shorter join. */
  lemma {:induction false} JoinSnoc(parts: seq<string>, last: string, sep: string)
    requires |parts| >= 1
    ensures Join(parts + [last], sep) == Join(parts, sep) + sep + last
    decreases |parts|
  {
    if |parts| == 1 {
      assert parts + [last] == [parts[0], last];
      assert [parts[0], last][1..] == [last];
    } else {
      assert (parts + [last])[1..] == parts[1..] + [last];
      assert (parts + [last])[0] == parts[0];
      JoinSnoc(parts[1..], last, sep);
    }
  }
}
