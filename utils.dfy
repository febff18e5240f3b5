/**
 * The output and diagnostic sanitiser of src/app/utils.py.
 *
 * `clean_str` normalises what a program printed: every carriage return is deleted and
 * then every trailing line feed. `clean_error` rewrites scratch-directory paths of the
 * form `/(tmp|sandbox)/\S*\.go` to `main.go` and then maps the two known failure
 * signatures (a process killed by the deadline, a core dump) to fixed sentinel texts.
 * Python's `Optional[str]` is `Option<string>`; `None` passes through both functions.
 */
module Utils {
  import opened Wrappers
  import Messages

  const CR: char := '\r'
  const LF: char := '\n'

  // ---------------------------------------------------------------------------------
  // Substrings: Python's `w in s`
  // ---------------------------------------------------------------------------------

  /** `w` occurs in `s` starting at index `i`. */
  predicate OccursAt(s: string, w: string, i: int) {
    0 <= i && i + |w| <= |s| && s[i..i + |w|] == w
  }

  /**
   * Python's `w in s`, decided by a left-to-right scan; it holds exactly when `w` occurs
   * in `s` at some index.
   */
  predicate Contains(s: string, w: string): (b: bool)
    ensures b <==> exists i :: OccursAt(s, w, i)
    decreases |s|
  {
    if w <= s then
      assert OccursAt(s, w, 0);
      true
    else if s == [] then
      assert forall i :: !OccursAt(s, w, i);
      false
    else
      OccursShift(s, w);
      Contains(s[1..], w)
  }

  /** When `w` is not a prefix of `s`, it occurs in `s` exactly when it occurs in `s[1..]`. */
  lemma OccursShift(s: string, w: string)
    requires s != [] && !(w <= s)
    ensures (exists i :: OccursAt(s, w, i)) <==> exists i :: OccursAt(s[1..], w, i)
  {
    if exists i :: OccursAt(s[1..], w, i) {
      var i :| OccursAt(s[1..], w, i);
      assert s[i + 1..i + 1 + |w|] == s[1..][i..i + |w|];
      assert OccursAt(s, w, i + 1);
    }
    forall i | OccursAt(s, w, i) ensures OccursAt(s[1..], w, i - 1) {
      assert s[1..][i - 1..i - 1 + |w|] == s[i..i + |w|];
    }
  }

  /** A text shorter than `w`, or one missing `w`'s first character, does not contain `w`. */
  lemma {:induction false} ContainsNeedsRoom(s: string, w: string)
    requires |s| < |w| || (w != [] && w[0] !in s)
    ensures !Contains(s, w)
  {
  }

  // ---------------------------------------------------------------------------------
  // clean_str
  // ---------------------------------------------------------------------------------

  /** `s.replace('\r', '')`: the characters of `s` other than carriage returns, in order. */
  function DeleteCR(s: string): (r: string)
    ensures CR !in r
    ensures multiset(r) == multiset(s)[CR := 0]
    ensures CR !in s ==> r == s
  {
    if s == [] then []
    else
      assert s == [s[0]] + s[1..];
      (if s[0] == CR then [] else [s[0]]) + DeleteCR(s[1..])
  }

  /** Deleting carriage returns works piecewise, so the order of the kept characters is that of `s`. */
  lemma {:induction false} DeleteCRAppend(a: string, b: string)
    ensures DeleteCR(a + b) == DeleteCR(a) + DeleteCR(b)
    decreases |a|
  {
    if a == [] {
      assert a + b == b;
    } else {
      assert (a + b)[0] == a[0];
      assert (a + b)[1..] == a[1..] + b;
      DeleteCRAppend(a[1..], b);
    }
  }

  predicate EndsWithLF(s: string) {
    s != [] && s[|s| - 1] == LF
  }

  /** `s.rstrip('\n')`: the longest prefix of `s` that does not end with a line feed. */
  function StripTrailingLF(s: string): (r: string)
    ensures r <= s
    ensures !EndsWithLF(r)
    ensures forall i :: |r| <= i < |s| ==> s[i] == LF
  {
    if EndsWithLF(s) then StripTrailingLF(s[..|s| - 1]) else s
  }

  /** `n` line feeds. */
  function LFs(n: nat): string {
    seq(n, _ => LF)
  }

  /** `clean_str`: `value.replace('\r', '').rstrip('\n')` on a string, `None` untouched. */
  function CleanStr(value: Option<string>): (r: Option<string>)
    ensures r.None? <==> value.None?
    ensures r.Some? ==> CR !in r.value && !EndsWithLF(r.value)
    ensures r.Some? ==>
      var kept := DeleteCR(value.value);
      |r.value| <= |kept| && kept == r.value + LFs(|kept| - |r.value|)
  {
    match value
    case None => None
    case Some(s) =>
      StripSplits(DeleteCR(s));
      Some(StripTrailingLF(DeleteCR(s)))
  }

  /** What rstrip removes is a run of line feeds, and it adds no carriage return. */
  lemma StripSplits(s: string)
    ensures var r := StripTrailingLF(s);
      |r| <= |s| && s == r + LFs(|s| - |r|) && (CR !in s ==> CR !in r)
  {
    var r := StripTrailingLF(s);
    assert s == r + s[|r|..];
    assert s[|r|..] == LFs(|s| - |r|);
    if CR in r {
      assert r[..] == s[..|r|];
    }
  }

  /** Appending line feeds to a text that does not end in one is undone by rstrip. */
  lemma {:induction false} StripLFs(t: string, k: nat)
    requires !EndsWithLF(t)
    ensures StripTrailingLF(t + LFs(k)) == t
    decreases k
  {
    if k == 0 {
      assert t + LFs(0) == t;
    } else {
      var s := t + LFs(k);
      assert EndsWithLF(s);
      assert s[..|s| - 1] == t + LFs(k - 1);
      StripLFs(t, k - 1);
    }
  }

  /**
   * `clean_str` removes exactly the carriage returns and the whole trailing run of line
   * feeds, nothing else: a text `t` without a trailing line feed from which the input
   * differs only by carriage returns and trailing line feeds is the result.
   */
  lemma {:induction false} CleanStrUnique(s: string, t: string, k: nat)
    requires DeleteCR(s) == t + LFs(k)
    requires !EndsWithLF(t)
    ensures CleanStr(Some(s)) == Some(t)
  {
    StripLFs(t, k);
  }

  /** Cleaning cleaned output changes nothing. */
  lemma CleanStrIdempotent(value: Option<string>)
    ensures CleanStr(CleanStr(value)) == CleanStr(value)
  {
  }

  /**
   * Windows line ends and any number of trailing line feeds go; whatever else ends the
   * text, such as a space or a tab, stays.
   */
  lemma {:induction false} CleanStrTrailing(t: string, k: nat)
    requires CR !in t && !EndsWithLF(t)
    ensures CleanStr(Some(t + [CR] + LFs(k))) == Some(t)
  {
    var s := t + [CR] + LFs(k);
    var cr, lfs := [CR], LFs(k);
    assert DeleteCR(cr) == [] by {
      assert cr[1..] == [];
    }
    assert DeleteCR(lfs) == lfs by {
      assert CR !in lfs;
    }
    DeleteCRAppend(t, cr);
    DeleteCRAppend(t + cr, lfs);
    assert DeleteCR(s) == DeleteCR(t) + DeleteCR(cr) + DeleteCR(lfs);
    assert DeleteCR(t) == t;
    assert DeleteCR(s) == t + lfs;
    CleanStrUnique(s, t, k);
  }

  /** Output made only of line feeds is cleaned to the empty text, not to `None`. */
  lemma CleanStrNewlineOnly()
    ensures CleanStr(Some("\n")) == Some("")
  {
    assert "\n" == [] + LFs(1);
    CleanStrUnique("\n", "", 1);
  }

  // ---------------------------------------------------------------------------------
  // The pattern /(tmp|sandbox)/\S*\.go
  // ---------------------------------------------------------------------------------

  const TMP := "/tmp/"
  const SANDBOX := "/sandbox/"
  const GO := ".go"
  const MAIN_GO := "main.go"

  /** Python's whitespace for `str` patterns: the characters `\s` matches and `\S` does not. */
  predicate IsSpace(c: char) {
    || c == ' ' || '\t' <= c <= '\r' || '\U{1c}' <= c <= '\U{1f}'
    || c == '\U{85}' || c == '\U{a0}' || c == '\U{1680}' || '\U{2000}' <= c <= '\U{200a}'
    || c == '\U{2028}' || c == '\U{2029}' || c == '\U{202f}' || c == '\U{205f}' || c == '\U{3000}'
  }

  /** Every character of `s` matches `\S`. */
  predicate NonSpace(s: string) {
    forall i :: 0 <= i < |s| ==> !IsSpace(s[i])
  }

  /** `w` matches `dir\S*\.go` as a whole. */
  predicate InDir(w: string, dir: string) {
    |dir| + |GO| <= |w| && w[..|dir|] == dir && w[|w| - |GO|..] == GO && NonSpace(w[|dir|..|w| - |GO|])
  }

  /** `w` matches `/(tmp|sandbox)/\S*\.go` as a whole: the pattern's language. */
  predicate PathWord(w: string) {
    InDir(w, TMP) || InDir(w, SANDBOX)
  }

  /** `.go` ends at index `j` of `s`. */
  predicate GoEndsAt(s: string, j: int) {
    |GO| <= j <= |s| && s[j - |GO|..j] == GO
  }

  /** Length of the alternation `/(tmp|sandbox)/` at the start of `s`, 0 when neither matches. */
  function DirPrefix(s: string): (n: nat)
    ensures n == |TMP| <==> TMP <= s
    ensures n == |SANDBOX| <==> SANDBOX <= s
    ensures n == 0 <==> !(TMP <= s) && !(SANDBOX <= s)
  {
    DirsExclusive(s);
    if TMP <= s then |TMP| else if SANDBOX <= s then |SANDBOX| else 0
  }

  /** The two alternatives differ in their second character, so at most one applies. */
  lemma DirsExclusive(s: string)
    ensures !(TMP <= s && SANDBOX <= s)
  {
    if TMP <= s {
      assert s[1] == TMP[1];
    }
  }

  /** How far `\S*` can reach at the start of `s`: the longest run of non-whitespace. */
  function NonSpaceRun(s: string): (n: nat)
    ensures n <= |s| && NonSpace(s[..n])
    ensures n == |s| || IsSpace(s[n])
  {
    if s == [] || IsSpace(s[0]) then 0
    else
      var n := 1 + NonSpaceRun(s[1..]);
      assert s[..n] == [s[0]] + s[1..][..n - 1];
      n
  }

  /** No run of non-whitespace at the start of `s` is longer than NonSpaceRun's. */
  lemma {:induction false} RunIsLongest(s: string, m: nat)
    requires m <= |s| && NonSpace(s[..m])
    ensures m <= NonSpaceRun(s)
  {
    if m > 0 {
      assert s[..m][0] == s[0];
      assert s[1..][..m - 1] == s[..m][1..];
      RunIsLongest(s[1..], m - 1);
    }
  }

  /**
   * The backtracking of the greedy `\S*`: starting from its longest reach `hi`, give
   * back one character at a time until `\.go` matches; the result is the largest end in
   * [lo, hi] at which `.go` ends.
   */
  function BackOff(s: string, lo: nat, hi: nat): (r: Option<nat>)
    requires hi <= |s|
    ensures r.Some? ==> lo <= r.value <= hi && GoEndsAt(s, r.value)
    ensures r.Some? ==> forall j :: r.value < j <= hi ==> !GoEndsAt(s, j)
    ensures r.None? ==> forall j :: lo <= j <= hi ==> !GoEndsAt(s, j)
    decreases hi
  {
    if hi < lo then None
    else if GoEndsAt(s, hi) then Some(hi)
    else if hi == 0 then None
    else BackOff(s, lo, hi - 1)
  }

  /** Length of the match of the pattern at the start of `s`, as Python's `re` finds it. */
  function MatchAt(s: string): (r: Option<nat>)
    ensures r.Some? ==> |TMP| + |GO| <= r.value <= |s|
  {
    var d := DirPrefix(s);
    if d == 0 then None else BackOff(s, d + |GO|, d + NonSpaceRun(s[d..]))
  }

  /** Which prefixes of `s` are words of the pattern: the scan's view of the language. */
  lemma PathWordPrefix(s: string, n: nat)
    requires n <= |s|
    ensures PathWord(s[..n]) <==>
      var d := DirPrefix(s);
      d != 0 && d + |GO| <= n <= d + NonSpaceRun(s[d..]) && GoEndsAt(s, n)
  {
    if PathWord(s[..n]) {
      WordPrefixInReach(s, n);
    }
    var d := DirPrefix(s);
    if d != 0 && d + |GO| <= n <= d + NonSpaceRun(s[d..]) && GoEndsAt(s, n) {
      ReachPrefixIsWord(s, n);
    }
  }

  /** A prefix that is a word of the pattern lies within the reach of `\S*` and ends in `.go`. */
  lemma WordPrefixInReach(s: string, n: nat)
    requires n <= |s| && PathWord(s[..n])
    ensures var d := DirPrefix(s);
      d != 0 && d + |GO| <= n <= d + NonSpaceRun(s[d..]) && GoEndsAt(s, n)
  {
    var w := s[..n];
    var d := DirPrefix(s);
    var dir := if InDir(w, TMP) then TMP else SANDBOX;
    assert InDir(w, dir);
    assert s[..|dir|] == w[..|dir|];
    assert d == |dir|;
    assert s[n - |GO|..n] == w[n - |GO|..];
    var reach := s[d..][..n - d];
    forall i | 0 <= i < |reach| ensures !IsSpace(reach[i]) {
      if i < n - |GO| - d {
        assert reach[i] == w[d..n - |GO|][i];
      } else {
        assert reach[i] == GO[i - (n - |GO| - d)];
      }
    }
    RunIsLongest(s[d..], n - d);
  }

  /** A prefix within the reach of `\S*` that ends in `.go` is a word of the pattern. */
  lemma ReachPrefixIsWord(s: string, n: nat)
    requires n <= |s|
    requires var d := DirPrefix(s);
      d != 0 && d + |GO| <= n <= d + NonSpaceRun(s[d..]) && GoEndsAt(s, n)
    ensures PathWord(s[..n])
  {
    var w := s[..n];
    var d := DirPrefix(s);
    var run := NonSpaceRun(s[d..]);
    var dir := if d == |TMP| then TMP else SANDBOX;
    assert w[..|dir|] == s[..|dir|] == dir;
    assert w[n - |GO|..] == s[n - |GO|..n];
    var middle := w[d..n - |GO|];
    forall i | 0 <= i < |middle| ensures !IsSpace(middle[i]) {
      assert middle[i] == s[d + i];
      assert s[d..][..run][i] == s[d + i];
    }
    assert InDir(w, dir);
  }

  /**
   * `MatchAt` is the leftmost-longest semantics of the pattern at the start of `s`: it
   * finds a match exactly when some prefix of `s` is a word of the pattern, and then
   * the longest such prefix, which is what the greedy `\S*` with backtracking yields.
   */
  lemma MatchAtIsLongestMatch(s: string)
    ensures MatchAt(s).Some? ==> PathWord(s[..MatchAt(s).value])
    ensures MatchAt(s).Some? ==> forall n :: MatchAt(s).value < n <= |s| ==> !PathWord(s[..n])
    ensures MatchAt(s).None? ==> forall n :: 0 <= n <= |s| ==> !PathWord(s[..n])
  {
    forall n | 0 <= n <= |s| {
      PathWordPrefix(s, n);
    }
  }

  /** `re.sub(r'/(tmp|sandbox)/\S*\.go', 'main.go', s)`: a left-to-right scan that replaces each leftmost-longest match. */
  function Rewrite(s: string): (r: string)
    ensures r == [] <==> s == []
    decreases |s|
  {
    if s == [] then []
    else
      match MatchAt(s)
      case Some(n) => MAIN_GO + Rewrite(s[n..])
      case None => [s[0]] + Rewrite(s[1..])
  }

  /** No match of the pattern starts at a position before `i`. */
  ghost predicate NoMatchBefore(s: string, i: nat) {
    forall k, j :: 0 <= k < i && k <= j <= |s| ==> !PathWord(s[k..j])
  }

  /** Where no word of the pattern starts at index 0, the scan finds no match there. */
  lemma NoMatchAtStart(s: string)
    requires NoMatchBefore(s, 1)
    ensures MatchAt(s).None?
  {
    forall v | 0 <= v <= |s| ensures !PathWord(s[..v]) {
      assert s[..v] == s[0..v];
    }
    MatchAtIsLongestMatch(s);
  }

  /** Dropping the first character keeps "no match starts in the prefix". */
  lemma NoMatchShift(s: string, i: nat)
    requires 0 < i <= |s| && NoMatchBefore(s, i)
    ensures NoMatchBefore(s[1..], i - 1)
  {
    forall k, j | 0 <= k < i - 1 && k <= j <= |s| - 1 ensures !PathWord(s[1..][k..j]) {
      assert s[1..][k..j] == s[k + 1..j + 1];
    }
  }

  /** Text in which no match starts is copied through unchanged. */
  lemma RewriteSkip(a: string, b: string)
    requires NoMatchBefore(a + b, |a|)
    ensures Rewrite(a + b) == a + Rewrite(b)
  {
    NoMatchStartsIn(a, b);
    CopyThrough(a, b);
  }

  /** The scan finds no match at each position of `a`, with `b` after it. */
  ghost predicate ScanMissesIn(a: string, b: string)
    decreases |a|
  {
    a == [] || (MatchAt(a + b).None? && ScanMissesIn(a[1..], b))
  }

  lemma {:induction false} NoMatchStartsIn(a: string, b: string)
    requires NoMatchBefore(a + b, |a|)
    ensures ScanMissesIn(a, b)
    decreases |a|
  {
    if a != [] {
      var s := a + b;
      NoMatchAtStart(s);
      NoMatchShift(s, |a|);
      assert s[1..] == a[1..] + b;
      NoMatchStartsIn(a[1..], b);
    }
  }

  lemma {:induction false} CopyThrough(a: string, b: string)
    requires ScanMissesIn(a, b)
    ensures Rewrite(a + b) == a + Rewrite(b)
    decreases |a|
  {
    if a == [] {
      assert a + b == b;
    } else {
      ConsSplit(a, b);
      RewriteAtMiss(a + b);
      CopyThrough(a[1..], b);
    }
  }

  /** Where the scan finds no match, it copies one character and moves on. */
  lemma RewriteAtMiss(s: string)
    requires s != [] && MatchAt(s).None?
    ensures Rewrite(s) == [s[0]] + Rewrite(s[1..])
  {
  }

  /** Splitting the first character off a concatenation. */
  lemma ConsSplit(a: string, b: string)
    requires a != []
    ensures (a + b)[0] == a[0] && (a + b)[1..] == a[1..] + b
    ensures forall r :: [a[0]] + (a[1..] + r) == a + r
  {
    forall r ensures [a[0]] + (a[1..] + r) == a + r {
      assert a == [a[0]] + a[1..];
    }
  }

  /**
   * The substitution replaces the leftmost match, and it replaces the longest word of the
   * pattern starting there; scanning then resumes right after it.
   */
  lemma {:induction false} RewriteLeftmost(s: string, i: nat, n: nat)
    requires i + n <= |s|
    requires NoMatchBefore(s, i)
    requires PathWord(s[i..i + n])
    requires forall m :: i + n < m <= |s| ==> !PathWord(s[i..m])
    ensures Rewrite(s) == s[..i] + MAIN_GO + Rewrite(s[i + n..])
  {
    var a, t := s[..i], s[i..];
    assert s == a + t;
    RewriteSkip(a, t);
    LeftmostTail(s, i, n);
  }

  /** The part of `RewriteLeftmost` from the match onwards. */
  lemma LeftmostTail(s: string, i: nat, n: nat)
    requires i + n <= |s|
    requires PathWord(s[i..i + n])
    requires forall m :: i + n < m <= |s| ==> !PathWord(s[i..m])
    ensures Rewrite(s[i..]) == MAIN_GO + Rewrite(s[i + n..])
  {
    var t := s[i..];
    forall m | n < m <= |t| ensures !PathWord(t[..m]) {
      assert t[..m] == s[i..i + m];
    }
    assert t[..n] == s[i..i + n];
    MatchAtLongest(t, n);
    RewriteAtMatch(t, n);
    assert t[n..] == s[i + n..];
  }

  /** A longest word of the pattern at the start of `t` is the match the scan finds there. */
  lemma MatchAtLongest(t: string, n: nat)
    requires n <= |t| && PathWord(t[..n])
    requires forall m :: n < m <= |t| ==> !PathWord(t[..m])
    ensures MatchAt(t) == Some(n)
  {
    MatchAtIsLongestMatch(t);
  }

  /** Where a match of length `n` starts, the scan emits `main.go` and resumes after it. */
  lemma RewriteAtMatch(t: string, n: nat)
    requires MatchAt(t) == Some(n)
    ensures t != [] && Rewrite(t) == MAIN_GO + Rewrite(t[n..])
  {
  }

  /** Text in which the pattern never matches is returned unchanged. */
  lemma RewriteIdentity(s: string)
    requires NoMatchBefore(s, |s|)
    ensures Rewrite(s) == s
  {
    assert s + [] == s;
    RewriteSkip(s, []);
  }

  /** Every word of the pattern starts with one of the two scratch directories. */
  lemma {:induction false} NoDirNoMatch(s: string)
    requires !Contains(s, TMP) && !Contains(s, SANDBOX)
    ensures NoMatchBefore(s, |s|)
  {
    forall k, j | 0 <= k < |s| && k <= j <= |s| ensures !PathWord(s[k..j]) {
      if k + |TMP| <= j {
        assert s[k..j][..|TMP|] == s[k..k + |TMP|];
        assert !OccursAt(s, TMP, k);
      }
      if k + |SANDBOX| <= j {
        assert s[k..j][..|SANDBOX|] == s[k..k + |SANDBOX|];
        assert !OccursAt(s, SANDBOX, k);
      }
    }
  }

  /** Text naming neither scratch directory is left alone by the path rewrite. */
  lemma RewritePassThrough(s: string)
    requires !Contains(s, TMP) && !Contains(s, SANDBOX)
    ensures Rewrite(s) == s
  {
    NoDirNoMatch(s);
    RewriteIdentity(s);
  }

  /** A whitespace character at index `k` of `u` bounds how far `\S*` reaches. */
  lemma RunStopsAtSpace(u: string, k: nat)
    requires k < |u| && IsSpace(u[k])
    ensures NonSpaceRun(u) <= k
  {
    var n := NonSpaceRun(u);
    forall i | 0 <= i < n ensures !IsSpace(u[i]) {
      assert u[..n][i] == u[i];
    }
  }

  /**
   * In `<dir><name>.go<tail><rest>`, with no `.` in `tail` and whitespace (or nothing)
   * after it, the longest word of the pattern at the start is `<dir><name>.go`.
   */
  lemma DiagnosticLongest(dir: string, name: string, tail: string, rest: string)
    requires dir == TMP || dir == SANDBOX
    requires NonSpace(name) && NonSpace(tail) && '.' !in tail
    requires rest == [] || IsSpace(rest[0])
    ensures MatchAt(dir + name + GO + tail + rest) == Some(|dir| + |name| + |GO|)
  {
    var h := dir + name + GO;
    var s := h + tail + rest;
    DiagnosticShape(dir, name, tail, rest);
    NoLongerWord(s, |dir|, |h|, |h| + |tail|);
    MatchAtLongest(s, |h|);
  }

  /** The facts about `<dir><name>.go<tail><rest>` that `NoLongerWord` needs. */
  lemma DiagnosticShape(dir: string, name: string, tail: string, rest: string)
    requires dir == TMP || dir == SANDBOX
    requires NonSpace(name) && NonSpace(tail) && '.' !in tail
    requires rest == [] || IsSpace(rest[0])
    ensures var h := dir + name + GO;
      var s := h + tail + rest;
      && PathWord(s[..|h|])
      && DirPrefix(s) == |dir|
      && (|h| + |tail| == |s| || IsSpace(s[|h| + |tail|]))
      && forall i :: |h| - |GO| < i <= |h| + |tail| - |GO| ==> s[i] != '.'
  {
    var h := dir + name + GO;
    var s := h + tail + rest;
    var n, e := |h|, |h| + |tail|;
    HeadIsWord(dir, name);
    PartsOf(h, tail, rest);
    assert s[..|dir|] == h[..|dir|] == dir;
    forall i | n - |GO| < i <= e - |GO| ensures s[i] != '.' {
      if i < n {
        assert s[i] == h[i] == GO[i - (n - |GO|)];
      } else {
        assert s[i] == tail[i - n];
      }
    }
  }

  /** `<dir><name>.go` is a word of the pattern. */
  lemma HeadIsWord(dir: string, name: string)
    requires dir == TMP || dir == SANDBOX
    requires NonSpace(name)
    ensures PathWord(dir + name + GO)
  {
    var w := dir + name + GO;
    var n := |w|;
    assert w[..|dir|] == dir && w[|dir|..n - |GO|] == name && w[n - |GO|..] == GO;
  }

  /** Where each part of a three-part concatenation sits. */
  lemma PartsOf(h: string, tail: string, rest: string)
    ensures (h + tail + rest)[..|h|] == h
    ensures forall i :: |h| <= i < |h| + |tail| ==> (h + tail + rest)[i] == tail[i - |h|]
    ensures rest != [] ==> (h + tail + rest)[|h| + |tail|] == rest[0]
  {
  }

  /**
   * Past the end `n` of a word of the pattern, no longer prefix is one when the
   * characters that could start a later `.go` are not dots and whitespace (or the end)
   * stops `\S*` at `e`.
   */
  lemma NoLongerWord(s: string, d: nat, n: nat, e: nat)
    requires d != 0 && DirPrefix(s) == d
    requires d + |GO| <= n <= e <= |s|
    requires e == |s| || IsSpace(s[e])
    requires forall i :: n - |GO| < i <= e - |GO| ==> s[i] != '.'
    ensures forall m :: n < m <= |s| ==> !PathWord(s[..m])
  {
    if e < |s| {
      assert s[d..][e - d] == s[e];
      RunStopsAtSpace(s[d..], e - d);
    }
    forall m | n < m <= |s| ensures !PathWord(s[..m]) {
      PathWordPrefix(s, m);
      assert s[m - |GO|..m][0] == s[m - |GO|];
    }
  }

  /**
   * One diagnostic line: `<dir><name>.go<tail><rest>` where the path's run of
   * non-whitespace ends inside `tail` (with no `.` or `/` in it) and `rest` starts with
   * whitespace, becomes `main.go<tail>` followed by the rewritten `rest`.
   */
  lemma RewriteDiagnostic(dir: string, name: string, tail: string, rest: string)
    requires dir == TMP || dir == SANDBOX
    requires NonSpace(name) && NonSpace(tail)
    requires '.' !in tail && '/' !in tail
    requires rest == [] || IsSpace(rest[0])
    ensures Rewrite(dir + name + GO + tail + rest) == MAIN_GO + tail + Rewrite(rest)
  {
    DiagnosticHead(dir, name, tail, rest);
    TailNoMatch(tail, rest);
    RewriteSkip(tail, rest);
    var r := Rewrite(rest);
    assert MAIN_GO + (tail + r) == MAIN_GO + tail + r;
  }

  /** The first step of `RewriteDiagnostic`: the path becomes `main.go`. */
  lemma DiagnosticHead(dir: string, name: string, tail: string, rest: string)
    requires dir == TMP || dir == SANDBOX
    requires NonSpace(name) && NonSpace(tail) && '.' !in tail
    requires rest == [] || IsSpace(rest[0])
    ensures Rewrite(dir + name + GO + tail + rest) == MAIN_GO + Rewrite(tail + rest)
  {
    var head := dir + name + GO;
    DiagnosticLongest(dir, name, tail, rest);
    RewriteAtMatch(head + tail + rest, |head|);
    DropHead(head, tail, rest);
  }

  /** Dropping the head of a three-part concatenation leaves the other two parts. */
  lemma DropHead(head: string, tail: string, rest: string)
    ensures (head + tail + rest)[|head|..] == tail + rest
  {
  }

  /** No word of the pattern starts inside a text without `/`. */
  lemma TailNoMatch(tail: string, rest: string)
    requires '/' !in tail
    ensures NoMatchBefore(tail + rest, |tail|)
  {
    var v := tail + rest;
    forall k, j | 0 <= k < |tail| && k <= j <= |v| ensures !PathWord(v[k..j]) {
      if k < j {
        assert v[k..j][0] == v[k] == tail[k];
      }
    }
  }

  /**
   * A compiler diagnostic `<dir><name>.go:<line>:<col>: <message>` whose message names
   * no scratch directory reads `main.go:<line>:<col>: <message>` afterwards, whatever
   * the host's file name was.
   */
  lemma RewriteDiagnosticLine(dir: string, name: string, tail: string, rest: string)
    requires dir == TMP || dir == SANDBOX
    requires NonSpace(name) && NonSpace(tail)
    requires '.' !in tail && '/' !in tail
    requires rest == [] || IsSpace(rest[0])
    requires !Contains(rest, TMP) && !Contains(rest, SANDBOX)
    ensures Rewrite(dir + name + GO + tail + rest) == MAIN_GO + tail + rest
  {
    RewriteDiagnostic(dir, name, tail, rest);
    RewritePassThrough(rest);
  }

  // ---------------------------------------------------------------------------------
  // clean_error
  // ---------------------------------------------------------------------------------

  /** The signature of a process killed by the deadline. */
  const TERMINATED := "Terminated"
  /** The signature of a process that dumped core. */
  const CORE_DUMPED := "the monitored command dumped core"

  /**
   * `clean_error`: rewrite scratch paths, then map the deadline signature to MSG_1, or
   * else the core-dump signature to MSG_8; `None` is returned untouched.
   */
  function CleanError(value: Option<string>): (r: Option<string>)
    ensures r.None? <==> value.None?
    ensures r.Some? ==>
      r.value == Messages.TimeExceeded || r.value == Messages.CoreDumped || r.value == Rewrite(value.value)
  {
    match value
    case None => None
    case Some(s) =>
      var t := Rewrite(s);
      if Contains(t, TERMINATED) then Some(Messages.TimeExceeded)
      else if Contains(t, CORE_DUMPED) then Some(Messages.CoreDumped)
      else Some(t)
  }

  /**
   * The sentinel mapping: the deadline signature wins over the core-dump signature, and
   * text with neither is the rewritten text.
   */
  lemma CleanErrorSentinels(s: string)
    ensures Contains(Rewrite(s), TERMINATED) ==> CleanError(Some(s)) == Some(Messages.TimeExceeded)
    ensures !Contains(Rewrite(s), TERMINATED) && Contains(Rewrite(s), CORE_DUMPED) ==>
      CleanError(Some(s)) == Some(Messages.CoreDumped)
    ensures !Contains(Rewrite(s), TERMINATED) && !Contains(Rewrite(s), CORE_DUMPED) ==>
      CleanError(Some(s)) == Some(Rewrite(s))
  {
  }

  /** Text with no scratch path and neither signature comes back unchanged. */
  lemma CleanErrorPassThrough(s: string)
    requires !Contains(s, TMP) && !Contains(s, SANDBOX)
    requires !Contains(s, TERMINATED) && !Contains(s, CORE_DUMPED)
    ensures CleanError(Some(s)) == Some(s)
  {
    RewritePassThrough(s);
  }

  /** The sentinels `clean_error` produces are fixed points of it. */
  lemma SentinelsAreFixedPoints()
    ensures CleanError(Some(Messages.TimeExceeded)) == Some(Messages.TimeExceeded)
    ensures CleanError(Some(Messages.CoreDumped)) == Some(Messages.CoreDumped)
  {
    var m1, m8 := Messages.TimeExceeded, Messages.CoreDumped;
    assert '/' !in m1 && 'T' !in m1 && '/' !in m8 && 'T' !in m8;
    ContainsNeedsRoom(m1, TMP);
    ContainsNeedsRoom(m1, SANDBOX);
    ContainsNeedsRoom(m1, TERMINATED);
    ContainsNeedsRoom(m1, CORE_DUMPED);
    ContainsNeedsRoom(m8, TMP);
    ContainsNeedsRoom(m8, SANDBOX);
    ContainsNeedsRoom(m8, TERMINATED);
    ContainsNeedsRoom(m8, CORE_DUMPED);
    CleanErrorPassThrough(m1);
    CleanErrorPassThrough(m8);
  }

  /** `clean_error` keeps Python truthiness: a non-empty diagnostic stays non-empty. */
  lemma CleanErrorKeepsTruthiness(value: Option<string>)
    ensures (CleanError(value).Some? && CleanError(value).value != []) <==> (value.Some? && value.value != [])
  {
  }
}
