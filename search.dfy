/**
 * The byte-search tool: parse the pattern, read the ROM, collect the offsets
 * of the pattern from `start_offset` on with repeated `bytes.find`, restarting
 * one byte after each hit (so occurrences may overlap) until `max_results`
 * have been found, and print each with up to eight bytes of context on both
 * sides.
 *
 * `Occurrences` is the specification: every offset from k on where the
 * pattern occurs, in ascending order. `SearchBytes` is the loop of the tool,
 * proved to return the first `max_results` of them.
 */
module Search {
  import opened Wrappers
  import opened Text
  import opened HexPattern

  /** The start index `bytes.find` actually uses: a negative start counts from the end. */
  function NormStart(n: nat, start: int): nat {
    if start >= 0 then start else if start + n < 0 then 0 else start + n
  }

  /** Python's `s[lo:hi]`, with negative indices counted from the end and both ends clipped. */
  function PyIndex(n: nat, i: int): nat {
    if i < 0 then (if i + n < 0 then 0 else i + n) else if i > n then n else i
  }

  function PySlice<T>(s: seq<T>, lo: int, hi: int): (r: seq<T>)
    ensures |r| <= |s|
  {
    var a, b := PyIndex(|s|, lo), PyIndex(|s|, hi);
    if a < b then s[a..b] else []
  }

  predicate MatchAt(data: seq<Byte>, pat: seq<Byte>, k: int) {
    0 <= k && k + |pat| <= |data| && data[k..k + |pat|] == pat
  }

  /** The scan of `bytes.find` from index k: the first match at or after k, or -1. */
  function FindFrom(data: seq<Byte>, pat: seq<Byte>, k: nat): int
    decreases |data| - k
  {
    if k + |pat| > |data| then -1
    else if MatchAt(data, pat, k) then k
    else FindFrom(data, pat, k + 1)
  }

  /** `data.find(pat, start)`. */
  function Find(data: seq<Byte>, pat: seq<Byte>, start: int): int {
    FindFrom(data, pat, NormStart(|data|, start))
  }

  /** Every offset from k on where pat occurs, ascending. */
  function Occurrences(data: seq<Byte>, pat: seq<Byte>, k: nat): seq<nat>
    decreases |data| - k
  {
    if k + |pat| > |data| then []
    else (if MatchAt(data, pat, k) then [k] else []) + Occurrences(data, pat, k + 1)
  }

  /** The first m elements of s (none when m is not positive). */
  function Take<T>(s: seq<T>, m: int): seq<T> {
    if m <= 0 then [] else if m >= |s| then s else s[..m]
  }

  // ---------------------------------------------------------------------------
  // The search loop
  // ---------------------------------------------------------------------------

  /**
   * `find` returns -1 exactly when nothing occurs from k on, and otherwise the
   * first occurrence, after which the remaining occurrences start one byte on.
   */
  lemma {:induction false} FindFromIsFirst(data: seq<Byte>, pat: seq<Byte>, k: nat)
    ensures FindFrom(data, pat, k) == -1 <==> Occurrences(data, pat, k) == []
    ensures FindFrom(data, pat, k) != -1 ==>
      var f := FindFrom(data, pat, k);
      && k <= f
      && Occurrences(data, pat, k) == [f as nat] + Occurrences(data, pat, f + 1)
    decreases |data| - k
  {
    if k + |pat| <= |data| && !MatchAt(data, pat, k) {
      FindFromIsFirst(data, pat, k + 1);
      assert Occurrences(data, pat, k) == [] + Occurrences(data, pat, k + 1);
    }
  }

  /**
   * The search loop of the tool: repeated `find`, each restarting one byte
   * after the previous hit, stopping at `max_results` hits or when `find`
   * returns -1.
   */
  method SearchBytes(data: seq<Byte>, pattern: seq<Byte>, startOffset: int, maxResults: int)
    returns (results: seq<int>)
    ensures results == Take(Occurrences(data, pattern, NormStart(|data|, startOffset)), maxResults)
  {
    ghost var all := Occurrences(data, pattern, NormStart(|data|, startOffset));
    results := [];
    var pos := startOffset;
    while |results| < maxResults
      invariant |results| <= if maxResults < 0 then 0 else maxResults
      invariant results + Occurrences(data, pattern, NormStart(|data|, pos)) == all
      decreases maxResults - |results|
    {
      ghost var k := NormStart(|data|, pos);
      FindFromIsFirst(data, pattern, k);
      pos := Find(data, pattern, pos);
      if pos == -1 {
        assert results == all;
        break;
      }
      Advance<int>(results, pos, Occurrences(data, pattern, pos + 1), Occurrences(data, pattern, NormStart(|data|, k)), all);
      results := results + [pos];
      pos := pos + 1;
    }
    if |results| >= maxResults && maxResults > 0 {
      assert all[..|results|] == results;
    }
  }

  // ---------------------------------------------------------------------------
  // What the results are
  // ---------------------------------------------------------------------------

  /** Occurrences lists exactly the offsets from k on where the pattern matches. */
  lemma {:induction false} OccurrencesExact(data: seq<Byte>, pat: seq<Byte>, k: nat)
    ensures forall j :: j in Occurrences(data, pat, k) <==> k <= j && MatchAt(data, pat, j)
    decreases |data| - k
  {
    if k + |pat| <= |data| {
      OccurrencesExact(data, pat, k + 1);
    }
  }

  predicate AllAtLeast(o: seq<nat>, k: nat) {
    forall a :: 0 <= a < |o| ==> k <= o[a]
  }

  predicate Ascending(o: seq<nat>) {
    forall a, b :: 0 <= a < b < |o| ==> o[a] < o[b]
  }

  lemma ConsAscending(k: nat, rest: seq<nat>)
    requires Ascending(rest) && AllAtLeast(rest, k + 1)
    ensures Ascending([k] + rest) && AllAtLeast([k] + rest, k)
  {
    var o := [k] + rest;
    forall a | 0 < a < |o|
      ensures o[a] == rest[a - 1]
    {
    }
  }

  /** Occurrences are strictly ascending and all at least k. */
  lemma {:induction false} OccurrencesAscending(data: seq<Byte>, pat: seq<Byte>, k: nat)
    ensures Ascending(Occurrences(data, pat, k)) && AllAtLeast(Occurrences(data, pat, k), k)
    decreases |data| - k
  {
    if k + |pat| <= |data| {
      OccurrencesAscending(data, pat, k + 1);
      var rest := Occurrences(data, pat, k + 1);
      if MatchAt(data, pat, k) {
        ConsAscending(k, rest);
      } else {
        assert Occurrences(data, pat, k) == rest;
      }
    }
  }

  /**
   * The offsets the tool reports: strictly ascending, each at or after the
   * start offset and a true occurrence, at most `max_results` of them, and
   * every occurrence after the start when fewer than `max_results` were found.
   */
  lemma SearchResultsSpec(data: seq<Byte>, pattern: seq<Byte>, startOffset: int, maxResults: int)
    ensures var r := Take(Occurrences(data, pattern, NormStart(|data|, startOffset)), maxResults);
      && Ascending(r)
      && (forall a :: 0 <= a < |r| ==> startOffset <= r[a] && MatchAt(data, pattern, r[a]))
      && |r| <= (if maxResults < 0 then 0 else maxResults)
      && (|r| < maxResults ==>
            forall j :: NormStart(|data|, startOffset) <= j && MatchAt(data, pattern, j) ==> j in r)
  {
    var k := NormStart(|data|, startOffset);
    var o := Occurrences(data, pattern, k);
    OccurrencesExact(data, pattern, k);
    OccurrencesAscending(data, pattern, k);
    TakePrefix(o, maxResults);
    var r := Take(o, maxResults);
    forall a | 0 <= a < |r|
      ensures startOffset <= r[a] && MatchAt(data, pattern, r[a])
    {
      assert r[a] == o[a] && o[a] in o;
    }
    forall a, b | 0 <= a < b < |r|
      ensures r[a] < r[b]
    {
      assert r[a] == o[a] && r[b] == o[b];
    }
  }

  lemma TakePrefix<T>(s: seq<T>, m: int)
    ensures |Take(s, m)| <= |s| && |Take(s, m)| <= (if m < 0 then 0 else m)
    ensures Take(s, m) == s[..|Take(s, m)|]
    ensures |Take(s, m)| < m ==> Take(s, m) == s
  {
  }

  /**
   * Hits may overlap: the scan resumes one byte after a hit, so a hit at i
   * that starts inside a hit at j is found too, and whenever the later one is
   * reported the earlier one is as well.
   */
  lemma OverlappingHits(data: seq<Byte>, pattern: seq<Byte>, startOffset: int, maxResults: int,
                        j: nat, i: nat)
    requires NormStart(|data|, startOffset) <= j < i < j + |pattern|
    requires MatchAt(data, pattern, j) && MatchAt(data, pattern, i)
    ensures var o := Occurrences(data, pattern, NormStart(|data|, startOffset));
      j in o && i in o
    ensures var r := Take(Occurrences(data, pattern, NormStart(|data|, startOffset)), maxResults);
      && (i in r ==> j in r)
      && (|r| < maxResults ==> j in r && i in r)
  {
    var o := Occurrences(data, pattern, NormStart(|data|, startOffset));
    OccurrencesExact(data, pattern, NormStart(|data|, startOffset));
    OccurrencesAscending(data, pattern, NormStart(|data|, startOffset));
    TakePrefix(o, maxResults);
    var r := Take(o, maxResults);
    if i in r {
      var a :| 0 <= a < |r| && r[a] == i;
      var b :| 0 <= b < |o| && o[b] == j;
      assert r[a] == o[a];
      assert b < a;
      assert r[b] == o[b];
    }
  }

  /** In 01 01 01 the pattern 01 01 is found at 0 and at 1. */
  lemma OverlapExample()
    ensures Take(Occurrences([1, 1, 1], [1, 1], NormStart(3, 0)), 50) == [0, 1]
  {
    var data: seq<Byte> := [1, 1, 1];
    var pat: seq<Byte> := [1, 1];
    assert data[0..2] == pat && data[1..3] == pat;
    assert Occurrences(data, pat, 2) == [];
  }

  // ---------------------------------------------------------------------------
  // The printed report
  // ---------------------------------------------------------------------------

  /** The context shown around a hit: up to 8 bytes before and after it, clipped to the buffer. */
  function ContextStart(pos: int): int {
    if pos - 8 > 0 then pos - 8 else 0
  }

  function ContextEnd(n: nat, pos: int, patLen: nat): int {
    if pos + patLen + 8 < n then pos + patLen + 8 else n
  }

  /** For a hit, the context window lies inside the buffer and covers the hit plus at most 8 bytes per side. */
  lemma ContextWindow(n: nat, pos: int, patLen: nat)
    requires 0 <= pos && pos + patLen <= n
    ensures var lo, hi := ContextStart(pos), ContextEnd(n, pos, patLen);
      && 0 <= lo <= pos && pos + patLen <= hi <= n
      && pos - lo == (if pos < 8 then pos else 8)
      && hi - (pos + patLen) == (if n - (pos + patLen) < 8 then n - (pos + patLen) else 8)
  {
  }

  /** `f"  0x{pos:06X}: {hex_ctx}"`. */
  function ContextLine(data: seq<Byte>, pos: int, patLen: nat): string {
    "  0x" + FormatHex(pos, 6) + ": "
      + HexBytes(PySlice(data, ContextStart(pos), ContextEnd(|data|, pos, patLen)))
  }

  function ContextLines(data: seq<Byte>, patLen: nat, results: seq<int>): (lines: seq<string>)
    ensures |lines| == |results|
  {
    if results == [] then [] else [ContextLine(data, results[0], patLen)] + ContextLines(data, patLen, results[1..])
  }

  /** The report lines for the hits found. */
  function Report(patternText: string, romName: string, data: seq<Byte>, patLen: nat,
                  results: seq<int>, maxResults: int): seq<string>
  {
    ["Search for pattern '" + patternText + "' in " + romName + ":",
     "Found " + FormatDec(|results|) + " match(es)"
       + (if |results| == maxResults then " (limited to " + FormatDec(maxResults) + ")" else ""),
     ""]
    + ContextLines(data, patLen, results)
  }

  /**
   * The exception raised while reading the ROM file. Its class matters: the
   * handler for `ValueError` (raised by `open` for a path holding a null
   * character, say) is the one meant for a bad pattern.
   */
  datatype ReadError = ValueError(message: string) | OtherError(message: string)

  /**
   * The text the tool returns. The pattern is parsed before the ROM is read,
   * so a bad pattern is reported whether or not the file can be read.
   */
  function SearchText(rawPattern: string, romName: string, rom: Result<seq<Byte>, ReadError>,
                      startOffset: int, maxResults: int): string
  {
    match ParsePattern(rawPattern)
    case Err(pos) => "Invalid hex pattern: " + FromHexMessage(pos)
    case Ok(pattern) =>
      match rom
      case Err(ValueError(msg)) => "Invalid hex pattern: " + msg
      case Err(OtherError(msg)) => "Error: " + msg
      case Ok(data) =>
        var hits := Take(Occurrences(data, pattern, NormStart(|data|, startOffset)), maxResults);
        Join("\n", Report(PatternText(rawPattern), romName, data, |pattern|, hits, maxResults))
  }

  /**
   * The search tool. `rom` is the outcome of reading the file: its bytes, or
   * the exception raised.
   */
  method SearchTool(rawPattern: string, romName: string, rom: Result<seq<Byte>, ReadError>,
                    startOffset: int, maxResults: int) returns (text: string)
    ensures text == SearchText(rawPattern, romName, rom, startOffset, maxResults)
  {
    var patternText := PatternText(rawPattern);
    match FromHex(patternText) {
      case Err(pos) =>
        text := "Invalid hex pattern: " + FromHexMessage(pos);
      case Ok(pattern) =>
        match rom {
          case Err(ValueError(msg)) =>
            text := "Invalid hex pattern: " + msg;
          case Err(OtherError(msg)) =>
            text := "Error: " + msg;
          case Ok(data) =>
            var results := SearchBytes(data, pattern, startOffset, maxResults);
            var lines := Report(patternText, romName, data, |pattern|, results, maxResults);
            text := Join("\n", lines);
        }
    }
  }

  /** A malformed pattern is reported as such, without looking at the file. */
  lemma BadPatternReported(rawPattern: string, romName: string, rom: Result<seq<Byte>, ReadError>,
                           startOffset: int, maxResults: int)
    requires ParsePattern(rawPattern).Err?
    ensures var t := SearchText(rawPattern, romName, rom, startOffset, maxResults);
      IsPrefix("Invalid hex pattern: ", t)
      && t == SearchText(rawPattern, romName, Err(OtherError("")), startOffset, maxResults)
  {
  }

  /**
   * A valid pattern with a file that cannot be read: a `ValueError` from the
   * read is reported as an invalid pattern too, every other exception as
   * "Error: " and its text.
   */
  lemma ReadErrorReported(rawPattern: string, romName: string, e: ReadError,
                          startOffset: int, maxResults: int)
    requires ParsePattern(rawPattern).Ok?
    ensures var t := SearchText(rawPattern, romName, Err(e), startOffset, maxResults);
      && (e.ValueError? ==> t == "Invalid hex pattern: " + e.message)
      && (e.OtherError? ==> t == "Error: " + e.message)
      && (IsPrefix("Invalid hex pattern: ", t) <==> e.ValueError?)
  {
    var t := SearchText(rawPattern, romName, Err(e), startOffset, maxResults);
    if e.OtherError? {
      assert t[0] == 'E';
    }
  }

  /** Three header lines, then one line per hit; "limited" exactly when max_results hits were found. */
  lemma ReportShape(patternText: string, romName: string, data: seq<Byte>, patLen: nat,
                    results: seq<int>, maxResults: int)
    ensures var lines := Report(patternText, romName, data, patLen, results, maxResults);
      && |lines| == 3 + |results|
      && (Contains(lines[1], " (limited to ") <==> |results| == maxResults)
      && lines[2] == ""
  {
    var lines := Report(patternText, romName, data, patLen, results, maxResults);
    var found := "Found " + FormatDec(|results|) + " match(es)";
    if |results| != maxResults {
      assert lines[1] == found;
      NoLimitedInFound(|results|);
    } else {
      assert lines[1] == found + " (limited to " + FormatDec(maxResults) + ")";
      ContainsAt(lines[1], " (limited to ", |found|);
    }
  }

  lemma ContainsAt(s: string, sub: string, k: nat)
    requires k + |sub| <= |s| && s[k..k + |sub|] == sub
    ensures Contains(s, sub)
    decreases k
  {
    if k > 0 {
      assert s[1..][k - 1..k - 1 + |sub|] == sub;
      ContainsAt(s[1..], sub, k - 1);
    }
  }

  lemma NoLimitedInFound(n: nat)
    ensures !Contains("Found " + FormatDec(n) + " match(es)", " (limited to ")
  {
    var d := DecDigits(n);
    var s := "Found " + d + " match(es)";
    DecDigitsAreDigits(n);
    forall i | 0 <= i < |s| - 1
      ensures s[i] == ' ' ==> s[i + 1] != '('
    {
      if i < 5 {
        assert s[i + 1] == "Found "[i + 1];
      } else if i == 5 {
        assert s[i + 1] == d[0];
      } else if i < 6 + |d| {
        assert s[i] == d[i - 6];
      } else {
        assert s[i] == " match(es)"[i - 6 - |d|];
        assert s[i + 1] == " match(es)"[i + 1 - 6 - |d|];
      }
    }
    NoSpaceParen(s, 0);
    assert s[0..] == s;
  }

  /** A text in which no space is followed by '(' does not contain " (limited to " anywhere from k on. */
  lemma {:induction false} NoSpaceParen(s: string, k: nat)
    requires k <= |s|
    requires forall i :: 0 <= i < |s| - 1 && s[i] == ' ' ==> s[i + 1] != '('
    ensures !Contains(s[k..], " (limited to ")
    decreases |s| - k
  {
    if k < |s| {
      var t := s[k..];
      NoSpaceParen(s, k + 1);
      assert t[1..] == s[k + 1..];
      assert !IsPrefix(" (limited to ", t) by {
        if k + 1 < |s| {
          assert t[..2] == [s[k], s[k + 1]];
        }
      }
    }
  }
}
