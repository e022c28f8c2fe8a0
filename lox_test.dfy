/**
 * What the integration test expects a Lox script to print (tests/lox.rs):
 * the script is split into lines at '\n', the lines holding the marker
 * `// expect: ` are kept in order, each is cut to what follows the first
 * marker, and the pieces are joined with '\n'.
 */
module LoxTests {
  import opened Wrappers

  /** `EXPECTED_COMMENT`. */
  const EXPECTED_COMMENT: string := "// expect: "

  /** `pat` occurs in `s` starting at `k`. */
  predicate OccursAt(s: string, pat: string, k: nat)
  {
    k + |pat| <= |s| && s[k..k + |pat|] == pat
  }

  /** The first occurrence of `pat` in `s` at `k` or later (`str::find` when `k` is 0). */
  function FindFrom(s: string, pat: string, k: nat): (r: Option<nat>)
    ensures r.Some? ==>
      && k <= r.value && OccursAt(s, pat, r.value)
      && forall j: nat | k <= j < r.value :: !OccursAt(s, pat, j)
    ensures r.None? ==> forall j: nat | k <= j :: !OccursAt(s, pat, j)
    decreases |s| - k
  {
    if k + |pat| > |s| then None
    else if s[k..k + |pat|] == pat then Some(k)
    else FindFrom(s, pat, k + 1)
  }

  /** `str::find`: the first position where `pat` occurs. */
  function Find(s: string, pat: string): (r: Option<nat>)
    ensures r.Some? ==> OccursAt(s, pat, r.value) && forall j: nat | j < r.value :: !OccursAt(s, pat, j)
    ensures r.None? ==> forall j: nat :: !OccursAt(s, pat, j)
  {
    FindFrom(s, pat, 0)
  }

  /** `str::contains`. */
  predicate Contains(s: string, pat: string)
    ensures Contains(s, pat) <==> exists j: nat :: OccursAt(s, pat, j)
  {
    Find(s, pat).Some?
  }

  /** `contains` holds exactly when the pattern occurs somewhere. */
  lemma ContainsIff(s: string, pat: string, k: nat)
    ensures OccursAt(s, pat, k) ==> Contains(s, pat)
    ensures Contains(s, pat) ==> OccursAt(s, pat, Find(s, pat).value)
  {
  }

  /** The first position of `c` in `s`. */
  function IndexOf(s: string, c: char): (r: Option<nat>)
    ensures r.Some? ==> r.value < |s| && s[r.value] == c && c !in s[..r.value]
    ensures r.None? ==> c !in s
  {
    if |s| == 0 then None
    else if s[0] == c then Some(0)
    else match IndexOf(s[1..], c)
      case None => None
      case Some(i) =>
        assert s[..i + 1] == [s[0]] + s[1..][..i];
        Some(i + 1)
  }

  /** `str::split(sep)`: the pieces between separators; there is always at least one. */
  function Split(s: string, sep: char): (parts: seq<string>)
    ensures |parts| >= 1
    ensures forall i | 0 <= i < |parts| :: sep !in parts[i]
    decreases |s|
  {
    match IndexOf(s, sep)
    case None => [s]
    case Some(i) => [s[..i]] + Split(s[i + 1..], sep)
  }

  /** `join(sep)`. */
  function Join(parts: seq<string>, sep: char): (s: string)
    ensures |parts| >= 1 ==> |parts[0]| <= |s| && s[..|parts[0]|] == parts[0]
    ensures |parts| >= 2 ==> sep in s
  {
    if |parts| == 0 then ""
    else if |parts| == 1 then parts[0]
    else parts[0] + [sep] + Join(parts[1..], sep)
  }

  /** Joining the pieces of a split gives the string back. */
  lemma {:induction false} JoinSplit(s: string, sep: char)
    ensures Join(Split(s, sep), sep) == s
    decreases |s|
  {
    match IndexOf(s, sep)
    case None =>
    case Some(i) =>
      var rest := Split(s[i + 1..], sep);
      assert Split(s, sep) == [s[..i]] + rest;
      JoinSplit(s[i + 1..], sep);
      assert ([s[..i]] + rest)[1..] == rest;
      assert s == s[..i] + [sep] + s[i + 1..];
  }

  /** Splitting a join of separator-free pieces gives the pieces back. */
  lemma {:induction false} SplitJoin(parts: seq<string>, sep: char)
    requires |parts| >= 1 && forall i | 0 <= i < |parts| :: sep !in parts[i]
    ensures Split(Join(parts, sep), sep) == parts
    decreases |parts|
  {
    if |parts| > 1 {
      var s := Join(parts, sep);
      var first := parts[0];
      assert s == first + [sep] + Join(parts[1..], sep);
      assert s[|first|] == sep && s[..|first|] == first;
      assert IndexOf(s, sep) == Some(|first|);
      assert s[|first| + 1..] == Join(parts[1..], sep);
      SplitJoin(parts[1..], sep);
    }
  }

  /** `.filter(|line| line.contains(EXPECTED_COMMENT))`. */
  function MarkerLines(lines: seq<string>): (kept: seq<string>)
    ensures |kept| <= |lines|
    ensures forall i | 0 <= i < |kept| :: Contains(kept[i], EXPECTED_COMMENT) && kept[i] in lines
  {
    if |lines| == 0 then []
    else (if Contains(lines[0], EXPECTED_COMMENT) then [lines[0]] else []) + MarkerLines(lines[1..])
  }

  /** The filter keeps order: filtering a concatenation filters each part. */
  lemma {:induction false} MarkerLinesConcat(a: seq<string>, b: seq<string>)
    ensures MarkerLines(a + b) == MarkerLines(a) + MarkerLines(b)
    decreases |a|
  {
    if |a| > 0 {
      assert (a + b)[0] == a[0] && (a + b)[1..] == a[1..] + b;
      MarkerLinesConcat(a[1..], b);
    } else {
      assert a + b == b;
    }
  }

  /** Every line that holds the marker is kept. */
  lemma {:induction false} MarkerLinesKeep(lines: seq<string>, i: nat)
    requires i < |lines| && Contains(lines[i], EXPECTED_COMMENT)
    ensures lines[i] in MarkerLines(lines)
    decreases i
  {
    if i > 0 {
      MarkerLinesKeep(lines[1..], i - 1);
    }
  }

  /** `&line[line.find(EXPECTED_COMMENT).unwrap() + EXPECTED_COMMENT.len()..]`. */
  function AfterMarker(line: string): (rest: string)
    requires Contains(line, EXPECTED_COMMENT)
    ensures var k := |line| - |rest| - |EXPECTED_COMMENT|;
      0 <= k && OccursAt(line, EXPECTED_COMMENT, k) && line[k + |EXPECTED_COMMENT|..] == rest
      && forall j: nat | j < k :: !OccursAt(line, EXPECTED_COMMENT, j)
  {
    line[Find(line, EXPECTED_COMMENT).value + |EXPECTED_COMMENT|..]
  }

  /** `.map(..)` over the kept lines. */
  function Entries(lines: seq<string>): (entries: seq<string>)
    requires forall i | 0 <= i < |lines| :: Contains(lines[i], EXPECTED_COMMENT)
    ensures |entries| == |lines|
    ensures forall i | 0 <= i < |lines| :: entries[i] == AfterMarker(lines[i])
  {
    seq(|lines|, i requires 0 <= i < |lines| => AfterMarker(lines[i]))
  }

  /** `expected_stdout`: one entry per marker line of the script, in order. */
  function ExpectedEntries(source: string): (entries: seq<string>)
    ensures |entries| == |MarkerLines(Split(source, '\n'))|
  {
    Entries(MarkerLines(Split(source, '\n')))
  }

  /** `expected_stdout.join("\n")`, which the test compares with the program's output. */
  function ExpectedStdout(source: string): (out: string)
    ensures |ExpectedEntries(source)| == 0 ==> out == ""
    ensures |ExpectedEntries(source)| >= 2 ==> '\n' in out
  {
    Join(ExpectedEntries(source), '\n')
  }

  /** An occurrence in a prefix is an occurrence in the whole string. */
  lemma PrefixOccurrence(s: string, n: nat, pat: string, j: nat)
    requires n <= |s| && OccursAt(s[..n], pat, j)
    ensures OccursAt(s, pat, j)
  {
    assert s[..n][j..j + |pat|] == s[j..j + |pat|];
  }

  /** An occurrence in a suffix is an occurrence in the whole string, shifted. */
  lemma SuffixOccurrence(s: string, d: nat, pat: string, j: nat)
    requires d <= |s| && OccursAt(s[d..], pat, j)
    ensures OccursAt(s, pat, d + j)
  {
    assert s[d..][j..j + |pat|] == s[d + j..d + j + |pat|];
  }

  /** An occurrence inside one piece of a split is an occurrence in the whole string. */
  lemma {:induction false} PieceOccurrence(s: string, sep: char, pat: string, i: nat, j: nat) returns (k: nat)
    requires i < |Split(s, sep)| && OccursAt(Split(s, sep)[i], pat, j)
    ensures OccursAt(s, pat, k)
    decreases |s|
  {
    var r := IndexOf(s, sep);
    if r.None? {
      k := j;
    } else {
      var n := r.value;
      var rest := Split(s[n + 1..], sep);
      assert Split(s, sep) == [s[..n]] + rest;
      if i == 0 {
        PrefixOccurrence(s, n, pat, j);
        k := j;
      } else {
        assert Split(s, sep)[i] == rest[i - 1];
        var k' := PieceOccurrence(s[n + 1..], sep, pat, i - 1, j);
        SuffixOccurrence(s, n + 1, pat, k');
        k := n + 1 + k';
      }
    }
  }

  /** A script without the marker expects nothing: no entries, and the joined text is empty. */
  lemma NoMarkerNoExpectation(source: string)
    requires !Contains(source, EXPECTED_COMMENT)
    ensures ExpectedEntries(source) == [] && ExpectedStdout(source) == ""
  {
    var lines := Split(source, '\n');
    if |MarkerLines(lines)| > 0 {
      var line := MarkerLines(lines)[0];
      var i :| 0 <= i < |lines| && lines[i] == line;
      var k := PieceOccurrence(source, '\n', EXPECTED_COMMENT, i, Find(line, EXPECTED_COMMENT).value);
      ContainsIff(source, EXPECTED_COMMENT, k);
    }
  }

  /** A script whose expectation is the test's "Working" holds the marker. */
  lemma WorkingNeedsMarker(source: string)
    requires ExpectedStdout(source) == "Working"
    ensures Contains(source, EXPECTED_COMMENT)
  {
    if !Contains(source, EXPECTED_COMMENT) {
      NoMarkerNoExpectation(source);
    }
  }

  /** No entry holds a newline, since each is cut from one line. */
  lemma EntriesAreSingleLines(source: string)
    ensures forall i | 0 <= i < |ExpectedEntries(source)| :: '\n' !in ExpectedEntries(source)[i]
  {
    var lines := Split(source, '\n');
    var kept := MarkerLines(lines);
    forall i | 0 <= i < |kept|
      ensures '\n' !in ExpectedEntries(source)[i]
    {
      var line := kept[i];
      var n :| 0 <= n < |lines| && lines[n] == line;
      assert '\n' !in line;
      var rest := AfterMarker(line);
      assert rest == line[|line| - |rest|..];
    }
  }

  /** The joined expectation splits back into the entries. */
  lemma StdoutSplitsBack(source: string)
    requires |ExpectedEntries(source)| >= 1
    ensures Split(ExpectedStdout(source), '\n') == ExpectedEntries(source)
  {
    EntriesAreSingleLines(source);
    SplitJoin(ExpectedEntries(source), '\n');
  }

  /** A one-line script whose marker has no slash before it expects the text after the marker. */
  lemma OneExpectation(before: string, after: string)
    requires '\n' !in before && '\n' !in after && '/' !in before
    ensures ExpectedStdout(before + EXPECTED_COMMENT + after) == after
  {
    var line := before + EXPECTED_COMMENT + after;
    assert IndexOf(line, '\n') == None;
    assert Split(line, '\n') == [line];
    assert OccursAt(line, EXPECTED_COMMENT, |before|);
    forall j: nat | j < |before|
      ensures !OccursAt(line, EXPECTED_COMMENT, j)
    {
      assert line[j..j + |EXPECTED_COMMENT|][0] == before[j] != EXPECTED_COMMENT[0];
    }
    var k := Find(line, EXPECTED_COMMENT).value;
    assert k == |before|;
    assert MarkerLines([line]) == [line];
  }
}
