/**
 * The pieces of `getBranchAutolinks` that read a branch name: splitting it
 * into `/`-separated chunks, recognising release chunks, and the two branch
 * patterns of a reference written out as scanners.
 */
module BranchMatching {
  import opened Wrappers
  import opened JsText
  import opened Autolinks

  // ---------------------------------------------------------------- split

  /** `s.split(sep)` for a one-character separator. */
  function Split(s: string, sep: char): (parts: seq<string>)
    ensures |parts| >= 1
    ensures forall i | 0 <= i < |parts| :: sep !in parts[i]
    decreases |s|
  {
    if |s| == 0 then [""]
    else
      var rest := Split(s[1..], sep);
      if s[0] == sep then [""] + rest
      else [[s[0]] + rest[0]] + rest[1..]
  }

  /** `parts.join(sep)` */
  function Join(parts: seq<string>, sep: char): string
    decreases |parts|
  {
    if |parts| == 0 then ""
    else if |parts| == 1 then parts[0]
    else parts[0] + [sep] + Join(parts[1..], sep)
  }

  /** Joining the chunks of a branch name with `/` gives the branch name back. */
  lemma {:induction false} SplitJoin(s: string, sep: char)
    ensures Join(Split(s, sep), sep) == s
    decreases |s|
  {
    if |s| > 0 {
      var rest := Split(s[1..], sep);
      SplitJoin(s[1..], sep);
      if s[0] == sep {
        assert Split(s, sep) == [""] + rest;
        assert ([""] + rest)[1..] == rest;
        assert s == [sep] + s[1..];
      } else {
        var parts := [[s[0]] + rest[0]] + rest[1..];
        assert parts[1..] == rest[1..];
        if |rest| > 1 {
          assert Join(rest, sep) == rest[0] + [sep] + Join(rest[1..], sep);
          assert Join(parts, sep) == ([s[0]] + rest[0]) + [sep] + Join(rest[1..], sep);
        }
        assert s == [s[0]] + s[1..];
      }
    }
  }

  // ------------------------------------------------------------- releases

  /** The words `v|ver?|versions?|releases?` accepts. */
  predicate IsReleaseWord(w: string) {
    w == "v" || w == "ve" || w == "ver" || w == "version" || w == "versions" || w == "release" || w == "releases"
  }

  /** `[\d.-]` */
  predicate IsReleaseNumberChar(c: char) {
    IsDigit(c) || c == '.' || c == '-'
  }

  /** Where the release number of `line` would start: its first character from `[\d.-]`. */
  function NumberStart(line: string, i: nat): (k: nat)
    requires i <= |line|
    ensures i <= k <= |line|
    ensures forall j | i <= j < k :: !IsReleaseNumberChar(line[j])
    ensures k == |line| || IsReleaseNumberChar(line[k])
    decreases |line| - i
  {
    if i == |line| || IsReleaseNumberChar(line[i]) then i else NumberStart(line, i + 1)
  }

  /**
   * `^(v|ver?|versions?|releases?)((?<releaseNum>[\d.-]+)?)$` on one line:
   * the release number (empty when the group does not take part) when the
   * line matches.
   */
  function ReleaseLine(line: string): (r: Option<string>)
    ensures r.Some? ==> exists k | 0 <= k <= |line| ::
      (IsReleaseWord(line[..k]) && line[k..] == r.value && forall j | k <= j < |line| :: IsReleaseNumberChar(line[j]))
    ensures r.Some? ==> |r.value| < |line| && forall j | 0 <= j < |r.value| :: IsReleaseNumberChar(r.value[j])
    ensures (forall j | 0 <= j < |line| :: IsReleaseNumberChar(line[j])) ==> r.None?
  {
    var k := NumberStart(line, 0);
    if IsReleaseWord(line[..k]) && forall j | k <= j < |line| :: IsReleaseNumberChar(line[j]) then Some(line[k..])
    else None
  }

  /** Only the word can end where the number starts: no word holds a character of `[\d.-]`. */
  lemma ReleaseLineComplete(line: string, k: nat)
    requires k <= |line| && IsReleaseWord(line[..k])
    requires forall j | k <= j < |line| :: IsReleaseNumberChar(line[j])
    ensures ReleaseLine(line) == Some(line[k..])
  {
    var w := line[..k];
    assert forall j | 0 <= j < k :: !IsReleaseNumberChar(line[j]) by {
      forall j | 0 <= j < k ensures !IsReleaseNumberChar(line[j]) {
        assert line[j] == w[j];
      }
    }
    assert k < |line| ==> IsReleaseNumberChar(line[k]);
  }

  /** Where the line starting at `i` ends: the next line terminator, or the end. */
  function LineEnd(s: string, i: nat): (e: nat)
    requires i <= |s|
    ensures i <= e <= |s| && (e == |s| || IsLineTerminator(s[e]))
    ensures forall j | i <= j < e :: !IsLineTerminator(s[j])
    decreases |s| - i
  {
    if i == |s| || IsLineTerminator(s[i]) then i else LineEnd(s, i + 1)
  }

  /**
   * `releaseRegex.exec(chunk)` with the `m` flag: `^` and `$` match at line
   * boundaries, and the pattern holds no line terminator, so the first
   * line from `from` on that is a release line gives the match.  The
   * number found is made of `[\d.-]`, and text made only of those
   * characters holds no release at all.
   */
  function ReleaseNumber(chunk: string, from: nat): (r: Option<string>)
    requires from <= |chunk|
    ensures r.Some? ==> forall j | 0 <= j < |r.value| :: IsReleaseNumberChar(r.value[j])
    ensures (forall j | from <= j < |chunk| :: IsReleaseNumberChar(chunk[j])) ==> r.None?
    decreases |chunk| - from
  {
    var e := LineEnd(chunk, from);
    var line := ReleaseLine(chunk[from..e]);
    if line.Some? then line
    else if e == |chunk| then None
    else ReleaseNumber(chunk, e + 1)
  }

  /**
   * A chunk such as `v2`, `release` or `release-1.0`.  A chunk of digits,
   * dots and dashes alone (`123`, `1.2`) is never one, so it is scanned.
   */
  predicate IsRelease(chunk: string): (b: bool)
    ensures (forall j | 0 <= j < |chunk| :: IsReleaseNumberChar(chunk[j])) ==> !b
  {
    ReleaseNumber(chunk, 0).Some?
  }

  /** A release chunk with no number (`release`, `v`): the number is in the next chunk. */
  predicate IsBareRelease(chunk: string): (b: bool)
    ensures b ==> IsRelease(chunk)
  {
    ReleaseNumber(chunk, 0) == Some("")
  }

  /** A line without a terminator is one line. */
  lemma OneLine(s: string)
    requires forall j | 0 <= j < |s| :: !IsLineTerminator(s[j])
    ensures LineEnd(s, 0) == |s|
  {
  }

  /** Every release word starts with `v` or `r`. */
  lemma ReleaseWordStart(w: string)
    ensures IsReleaseWord(w) ==> |w| > 0 && (w[0] == 'v' || w[0] == 'r')
  {
  }

  /** `release` is a bare release. */
  lemma BareReleaseExample()
    ensures IsBareRelease("release")
  {
    var c := "release";
    OneLine(c);
    assert c[0..7] == c && c[..7] == c;
    ReleaseLineComplete(c, 7);
  }

  /** `v1.2` is a release with its number. */
  lemma NumberedReleaseExample()
    ensures IsRelease("v1.2") && !IsBareRelease("v1.2")
  {
    var c := "v1.2";
    OneLine(c);
    assert c[0..4] == c && c[..1] == "v" && c[1..] == "1.2";
    ReleaseLineComplete(c, 1);
  }

  /** A chunk that starts with its number is no release. */
  lemma NumberFirstNoRelease()
    ensures !IsRelease("123-fix")
  {
    var c := "123-fix";
    OneLine(c);
    assert c[0..7] == c;
    assert NumberStart(c, 0) == 0 && c[..0] == "";
  }

  /** The release pattern is matched with regard to case. */
  lemma CapitalisedNoRelease()
    ensures !IsRelease("Release")
  {
    var c := "Release";
    OneLine(c);
    assert c[0..7] == c;
    var k := NumberStart(c, 0);
    ReleaseWordStart(c[..k]);
    assert k > 0 ==> c[..k][0] == 'R';
  }

  // ------------------------------------------------------ branch matches

  /**
   * A match of a branch pattern: where it starts (its delimiter included),
   * the issue number, the number chunk (`123` or `123-4`, only the
   * pattern without prefix has one) and where the next search starts.
   */
  datatype BranchMatch = BranchMatch(index: nat, issueKey: string, numberChunk: string, end: nat)

  /** `/|-|_`: what may surround a number chunk. */
  predicate IsChunkDelimiter(c: char) {
    c == '/' || c == '-' || c == '_'
  }

  /** `-|\.|_`: what may join the two numbers of a number chunk. */
  predicate IsNumberSeparator(c: char) {
    c == '-' || c == '.' || c == '_'
  }

  /** `$|\/|-|_` holds at `e`. */
  predicate ChunkEndingAt(s: string, e: nat) {
    e == |s| || (e < |s| && IsChunkDelimiter(s[e]))
  }

  /**
   * `(?<issueKeyNumber>\d+)(((-|\.|_)\d+){0,1})` followed by an ending, at
   * `q`: the end of the issue number and the end of the number chunk.  The
   * greedy runs never gain from backtracking, since a shorter run is
   * followed by a digit; the second number is tried first.
   */
  function NumberChunkAt(s: string, q: nat): (r: Option<(nat, nat)>)
    requires q <= |s|
    ensures r.Some? ==> q < r.value.0 <= r.value.1 <= |s| && ChunkEndingAt(s, r.value.1)
  {
    var e1 := IdRunEnd(s, q, false);
    if e1 == q then None
    else if e1 < |s| && IsNumberSeparator(s[e1]) && IdRunEnd(s, e1 + 1, false) > e1 + 1
      && ChunkEndingAt(s, IdRunEnd(s, e1 + 1, false)) then Some((e1, IdRunEnd(s, e1 + 1, false)))
    else if ChunkEndingAt(s, e1) then Some((e1, e1))
    else None
  }

  /** The match of the number chunk at `q` for a match starting at `i`; the ending is consumed. */
  function NumberMatch(s: string, i: nat, q: nat): (m: Option<BranchMatch>)
    requires i <= q <= |s|
    ensures m.Some? ==> m.value.index == i && i < m.value.end <= |s|
  {
    match NumberChunkAt(s, q)
    case None => None
    case Some((e1, e2)) => Some(BranchMatch(i, s[q..e1], s[q..e2], if e2 == |s| then e2 else e2 + 1))
  }

  /** `(^|\/|-|_)` then a number chunk and its ending, at `i`. */
  function NonPrefixedAt(s: string, i: nat): (m: Option<BranchMatch>)
    requires i <= |s|
    ensures m.Some? ==> m.value.index == i && i < m.value.end <= |s|
  {
    if i == 0 && NumberMatch(s, 0, 0).Some? then NumberMatch(s, 0, 0)
    else if i < |s| && IsChunkDelimiter(s[i]) then NumberMatch(s, i, i + 1)
    else None
  }

  /** `-|_|\.|\/`: what may precede a prefix and follow an issue key. */
  predicate IsKeyDelimiter(c: char) {
    c == '-' || c == '_' || c == '.' || c == '/'
  }

  /** `(?=$|\-|_|\.|\/)` holds at `e`. */
  predicate KeyEndingAt(s: string, e: nat) {
    e == |s| || (e < |s| && IsKeyDelimiter(s[e]))
  }

  /**
   * The longest end in `(r, e]` after which the lookahead holds: where the
   * greedy `\d+` or `\w+` settles after backtracking.
   */
  function KeyEnd(s: string, r: nat, e: nat): (k: Option<nat>)
    requires e <= |s|
    ensures k.Some? ==> r < k.value <= e && KeyEndingAt(s, k.value)
    ensures k.Some? ==> forall j | k.value < j <= e :: !KeyEndingAt(s, j)
    ensures k.None? ==> forall j | r < j <= e :: !KeyEndingAt(s, j)
    decreases e
  {
    if e <= r then None
    else if KeyEndingAt(s, e) then Some(e)
    else KeyEnd(s, r, e - 1)
  }

  /** `<prefix>(?<issueKeyNumber>\d+|\w+)(?=…)` at `q`, the prefix compared without regard to case. */
  function PrefixedBodyAt(prefix: string, alphanumeric: bool, s: string, i: nat, q: nat): (m: Option<BranchMatch>)
    requires i <= q <= |s|
    ensures m.Some? ==> m.value.index == i && i < m.value.end <= |s|
  {
    if !LiteralAt(s, q, prefix, true) then None
    else
      var r := q + |prefix|;
      match KeyEnd(s, r, IdRunEnd(s, r, alphanumeric))
      case None => None
      case Some(e) => Some(BranchMatch(i, s[r..e], s[r..e], e))
  }

  /** `(^|\-|_|\.|\/)` then the prefixed key, at `i`; the lookahead is not consumed. */
  function PrefixedAt(prefix: string, alphanumeric: bool, s: string, i: nat): (m: Option<BranchMatch>)
    requires i <= |s|
    ensures m.Some? ==> m.value.index == i && i < m.value.end <= |s|
  {
    if i == 0 && PrefixedBodyAt(prefix, alphanumeric, s, 0, 0).Some? then PrefixedBodyAt(prefix, alphanumeric, s, 0, 0)
    else if i < |s| && IsKeyDelimiter(s[i]) then PrefixedBodyAt(prefix, alphanumeric, s, i, i + 1)
    else None
  }

  /** A branch pattern at position `i`. */
  function BranchMatchAt(p: BranchPattern, s: string, i: nat): (m: Option<BranchMatch>)
    requires i <= |s|
    ensures m.Some? ==> m.value.index == i && i < m.value.end <= |s|
  {
    match p
    case NonPrefixed => NonPrefixedAt(s, i)
    case Prefixed(prefix, alphanumeric) => PrefixedAt(prefix, alphanumeric, s, i)
  }

  /** Where the number chunk of a match at `i` starts: at `i` for `^`, after the delimiter otherwise. */
  function ChunkStart(s: string, i: nat): nat
    requires i <= |s|
  {
    if i == 0 && NumberMatch(s, 0, 0).Some? then 0 else i + 1
  }

  /**
   * What a match of the pattern without prefix consists of: the start of
   * the text or a delimiter, the issue number (the whole run of digits),
   * at most one separator and second number, then an ending.
   */
  lemma NonPrefixedShape(s: string, i: nat)
    requires i <= |s|
    ensures NonPrefixedAt(s, i).Some? ==>
      var m := NonPrefixedAt(s, i).value;
      var q := ChunkStart(s, i);
      && (q == i || (q == i + 1 && IsChunkDelimiter(s[i])))
      && q + |m.numberChunk| <= |s|
      && m.numberChunk == s[q..q + |m.numberChunk|]
      && 0 < |m.issueKey| <= |m.numberChunk|
      && m.issueKey == s[q..q + |m.issueKey|]
      && (forall k | q <= k < q + |m.issueKey| :: IsDigit(s[k]))
      && (q + |m.issueKey| == |s| || !IsDigit(s[q + |m.issueKey|]))
      && (|m.issueKey| == |m.numberChunk| || IsNumberSeparator(s[q + |m.issueKey|]))
      && ChunkEndingAt(s, q + |m.numberChunk|)
  {
  }

  /** `123-fix`: the number at the start, its ending `-` consumed. */
  lemma NumberAtStartExample()
    ensures NonPrefixedAt("123-fix", 0) == Some(BranchMatch(0, "123", "123", 4))
  {
    var s := "123-fix";
    assert IdRunEnd(s, 0, false) == 3;
    assert s[0..3] == "123";
  }

  /** `fix/12-3`: the number chunk takes the second number, the issue key does not. */
  lemma NumberChunkExample()
    ensures NonPrefixedAt("fix/12-3", 3) == Some(BranchMatch(3, "12", "12-3", 8))
  {
    var s := "fix/12-3";
    assert IdRunEnd(s, 4, false) == 6;
    assert IdRunEnd(s, 7, false) == 8;
    assert s[4..6] == "12" && s[4..8] == "12-3";
  }

  /** Where the prefix of a match at `i` starts. */
  function KeyStart(prefix: string, alphanumeric: bool, s: string, i: nat): nat
    requires i <= |s|
  {
    if i == 0 && PrefixedBodyAt(prefix, alphanumeric, s, 0, 0).Some? then 0 else i + 1
  }

  /**
   * What a match of a prefixed pattern consists of: the start of the text
   * or a delimiter, the prefix up to ASCII case, the issue key of id
   * characters, and a delimiter or the end right after it.
   */
  lemma PrefixedShape(prefix: string, alphanumeric: bool, s: string, i: nat)
    requires i <= |s|
    ensures PrefixedAt(prefix, alphanumeric, s, i).Some? ==>
      var m := PrefixedAt(prefix, alphanumeric, s, i).value;
      var q := KeyStart(prefix, alphanumeric, s, i);
      && (q == i || (q == i + 1 && IsKeyDelimiter(s[i])))
      && LiteralAt(s, q, prefix, true)
      && q + |prefix| < m.end
      && m.issueKey == s[q + |prefix|..m.end]
      && m.numberChunk == m.issueKey
      && (forall k | q + |prefix| <= k < m.end :: IsIdChar(alphanumeric, s[k]))
      && KeyEndingAt(s, m.end)
  {
  }

  /** `feat-gh-42` with prefix `GH-`: the prefix matches without regard to case. */
  lemma PrefixedExample()
    ensures PrefixedAt("GH-", false, "feat-gh-42", 4) == Some(BranchMatch(4, "42", "42", 10))
  {
    var s := "feat-gh-42";
    assert LiteralAt(s, 5, "GH-", true);
    assert IdRunEnd(s, 8, false) == 10;
    assert s[8..10] == "42";
  }

  /** A run of id characters that stops at `e` is the greedy run from `i`. */
  lemma IdRunEndAt(s: string, i: nat, e: nat, alphanumeric: bool)
    requires i <= e <= |s|
    requires forall k | i <= k < e :: IsIdChar(alphanumeric, s[k])
    requires e == |s| || !IsIdChar(alphanumeric, s[e])
    ensures IdRunEnd(s, i, alphanumeric) == e
  {
    var r := IdRunEnd(s, i, alphanumeric);
    if r < e {
      assert false;
    } else if r > e {
      assert false;
    }
  }

  /**
   * Conversely, a number chunk is found wherever one stands: a run of
   * digits from `q` to `e1`, then either an ending right there (`e2 == e1`)
   * or a separator and a second run of digits to `e2` followed by an
   * ending.  The issue number is always the first run; the second form,
   * which the pattern tries first, is taken whenever it is there.
   */
  lemma NumberChunkComplete(s: string, q: nat, e1: nat, e2: nat)
    requires q < e1 <= e2 <= |s|
    requires forall k | q <= k < e1 :: IsDigit(s[k])
    requires e1 == |s| || !IsDigit(s[e1])
    requires e2 > e1 ==> IsNumberSeparator(s[e1]) && e1 + 1 < e2
    requires e2 > e1 ==> (forall k | e1 < k < e2 :: IsDigit(s[k])) && (e2 == |s| || !IsDigit(s[e2]))
    requires ChunkEndingAt(s, e2)
    ensures NumberChunkAt(s, q).Some? && NumberChunkAt(s, q).value.0 == e1
    ensures e2 > e1 ==> NumberChunkAt(s, q).value.1 == e2
  {
    IdRunEndAt(s, q, e1, false);
    if e2 > e1 {
      IdRunEndAt(s, e1 + 1, e2, false);
    }
  }

  /**
   * Conversely for the whole pattern without prefix: at the start of the
   * text, or at a delimiter, a number chunk as above gives a match whose
   * issue number is the first run of digits.
   */
  lemma NonPrefixedComplete(s: string, i: nat, q: nat, e1: nat, e2: nat)
    requires (i == 0 && q == 0) || (i < |s| && IsChunkDelimiter(s[i]) && q == i + 1)
    requires q < e1 <= e2 <= |s|
    requires forall k | q <= k < e1 :: IsDigit(s[k])
    requires e1 == |s| || !IsDigit(s[e1])
    requires e2 > e1 ==> IsNumberSeparator(s[e1]) && e1 + 1 < e2
    requires e2 > e1 ==> (forall k | e1 < k < e2 :: IsDigit(s[k])) && (e2 == |s| || !IsDigit(s[e2]))
    requires ChunkEndingAt(s, e2)
    ensures NonPrefixedAt(s, i).Some?
    ensures NonPrefixedAt(s, i).value.issueKey == s[q..e1]
    ensures e2 > e1 ==> NonPrefixedAt(s, i).value.numberChunk == s[q..e2]
  {
    NumberChunkComplete(s, q, e1, e2);
    if q == i + 1 && i == 0 {
      assert NumberChunkAt(s, 0).None? by {
        assert IdRunEnd(s, 0, false) == 0 by {
          IdRunEndAt(s, 0, 0, false);
        }
      }
    }
  }

  /**
   * Conversely for a prefixed pattern: at the start of the text, or after a
   * delimiter (at position 0 too, when `^` does not match there), the prefix up to ASCII case followed by id characters up to
   * a place where the lookahead holds gives a match.  The key may run on
   * to a later such place (a `_` inside a word key), since the greedy run
   * backtracks only as far as it must; it ends exactly there when the id
   * characters stop there.
   */
  lemma PrefixedComplete(prefix: string, alphanumeric: bool, s: string, i: nat, q: nat, e: nat)
    requires (i == 0 && q == 0)
      || (i < |s| && IsKeyDelimiter(s[i]) && q == i + 1 && (i == 0 ==> PrefixedBodyAt(prefix, alphanumeric, s, 0, 0).None?))
    requires LiteralAt(s, q, prefix, true)
    requires q + |prefix| < e <= |s|
    requires forall k | q + |prefix| <= k < e :: IsIdChar(alphanumeric, s[k])
    requires KeyEndingAt(s, e)
    ensures PrefixedAt(prefix, alphanumeric, s, i).Some?
    ensures var m := PrefixedAt(prefix, alphanumeric, s, i).value;
      && e <= m.end && KeyEndingAt(s, m.end)
      && m.issueKey == s[q + |prefix|..m.end]
      && ((e == |s| || !IsIdChar(alphanumeric, s[e])) ==> m.end == e)
  {
    var r := q + |prefix|;
    var run := IdRunEnd(s, r, alphanumeric);
    assert e <= run by {
      if run < e {
        assert false;
      }
    }
    if e == |s| || !IsIdChar(alphanumeric, s[e]) {
      IdRunEndAt(s, r, e, alphanumeric);
    }
    assert KeyEnd(s, r, run).Some?;
  }

  /** `_GH-42` with prefix `GH-`: `^` fails at 0, so the match at 0 consumes the `_`. */
  lemma LeadingDelimiterExample()
    ensures PrefixedAt("GH-", false, "_GH-42", 0).Some?
    ensures PrefixedAt("GH-", false, "_GH-42", 0).value.issueKey == "42"
  {
    var s := "_GH-42";
    assert !LiteralAt(s, 0, "GH-", true) by {
      assert s[0] == '_';
    }
    assert LiteralAt(s, 1, "GH-", true);
    assert s[4] == '4' && s[5] == '2';
    PrefixedComplete("GH-", false, s, 0, 1, 6);
    assert s[4..6] == "42";
  }

  // ------------------------------------------------------------ matchAll

  /** No match starts in `[from, to)`. */
  predicate NoMatchIn(p: BranchPattern, s: string, from: nat, to: nat)
    requires from <= to <= |s| + 1
    decreases |s| + 1 - from
  {
    from == to || (BranchMatchAt(p, s, from).None? && NoMatchIn(p, s, from + 1, to))
  }

  lemma {:induction false} NoMatchInMeans(p: BranchPattern, s: string, from: nat, to: nat)
    requires from <= to <= |s| + 1
    ensures NoMatchIn(p, s, from, to) <==> (forall i: nat | from <= i < to :: BranchMatchAt(p, s, i).None?)
    decreases |s| + 1 - from
  {
    if from < to {
      NoMatchInMeans(p, s, from + 1, to);
    }
  }

  /** `exec` with `lastIndex == from`: the first match starting at or after `from`. */
  function ExecFrom(p: BranchPattern, s: string, from: nat): (m: Option<BranchMatch>)
    requires from <= |s|
    ensures m.Some? ==> from <= m.value.index < m.value.end <= |s| && BranchMatchAt(p, s, m.value.index) == m
    ensures m.Some? ==> NoMatchIn(p, s, from, m.value.index)
    ensures m.None? ==> NoMatchIn(p, s, from, |s| + 1)
    decreases |s| - from
  {
    match BranchMatchAt(p, s, from)
    case Some(m) => Some(m)
    case None => if from == |s| then None else ExecFrom(p, s, from + 1)
  }

  /**
   * `s.matchAll(pattern)`: a copy of the pattern runs from `lastIndex` 0,
   * each search starting where the previous match ended (every match is
   * non-empty, so no empty-match step arises).
   */
  function AllMatches(p: BranchPattern, s: string, from: nat): (ms: seq<BranchMatch>)
    requires from <= |s|
    ensures forall k | 0 <= k < |ms| :: from <= ms[k].index < ms[k].end <= |s|
    ensures forall k | 0 <= k < |ms| - 1 :: ms[k].end <= ms[k + 1].index
    ensures |ms| == 0 <==> ExecFrom(p, s, from).None?
    decreases |s| - from
  {
    match ExecFrom(p, s, from)
    case None => []
    case Some(m) =>
      var rest := AllMatches(p, s, m.end);
      assert forall k | 1 <= k < |rest| + 1 :: ([m] + rest)[k] == rest[k - 1];
      [m] + rest
  }

  /** Each element of `AllMatches` is a match of the pattern where it starts. */
  lemma {:induction false} AllMatchesAreMatches(p: BranchPattern, s: string, from: nat)
    requires from <= |s|
    ensures var ms := AllMatches(p, s, from);
      forall k | 0 <= k < |ms| :: BranchMatchAt(p, s, ms[k].index) == Some(ms[k])
    decreases |s| - from
  {
    var ms := AllMatches(p, s, from);
    if |ms| > 0 {
      var m := ExecFrom(p, s, from).value;
      AllMatchesAreMatches(p, s, m.end);
      assert ms == [m] + AllMatches(p, s, m.end);
    }
  }
}
