/**
 * `calculatePriority`: the ranking string of an autolink found in a branch
 * name, built from four character codes, and how the string comparison of
 * two such strings ranks them.
 */
module BranchPriority {
  import opened JsText
  import opened Autolinks
  import opened AutolinkRanking

  /** `String.fromCharCode` keeps the low 16 bits of its argument (ToUint16). */
  function ToUint16(x: int): CodeUnit {
    x % 0x1_0000
  }

  lemma ToUint16InRange(x: int)
    ensures 0 <= x < 0x1_0000 ==> ToUint16(x) == x
  {
  }

  /** `'a'.charCodeAt(0)` */
  const LowerA: int := 97

  predicate AllDigits(s: string) {
    forall k | 0 <= k < |s| :: IsDigit(s[k])
  }

  /** `Number(s)` for a string of decimal digits. */
  function DecimalValue(s: string): nat
    requires AllDigits(s)
    decreases |s|
  {
    if |s| == 0 then 0
    else 10 * DecimalValue(s[..|s| - 1]) + (s[|s| - 1] as int - '0' as int)
  }

  /** The four character codes a priority string carries, most significant first. */
  datatype PriorityKey = PriorityKey(chunk: CodeUnit, edge: CodeUnit, exact: CodeUnit, number: CodeUnit)

  /**
   * The character codes `calculatePriority` computes.  Each is its offset
   * from `a` as long as that stays within 16 bits; the third is `b` exactly
   * when the issue key is the whole number group.
   */
  function KeyOf(issueKey: string, edgeDistance: int, numberGroup: string, chunkIndex: int): (k: PriorityKey)
    requires AllDigits(issueKey)
    ensures 0 <= LowerA + chunkIndex < 0x1_0000 ==> k.chunk == LowerA + chunkIndex
    ensures 0 <= LowerA - edgeDistance < 0x1_0000 ==> k.edge == LowerA - edgeDistance
    ensures k.exact == LowerA + 1 <==> issueKey == numberGroup
    ensures k.exact == LowerA || k.exact == LowerA + 1
    ensures LowerA + DecimalValue(issueKey) < 0x1_0000 ==> k.number == LowerA + DecimalValue(issueKey)
  {
    PriorityKey(
      ToUint16(LowerA + chunkIndex),
      ToUint16(LowerA - edgeDistance),
      LowerA + (if issueKey == numberGroup then 1 else 0),
      ToUint16(LowerA + DecimalValue(issueKey)))
  }

  /** `"\n\t\t"` */
  const Opening: seq<CodeUnit> := [10, 9, 9]
  /** `":\t\t"`: a colon, then the indentation of the next template line. */
  const Separator: seq<CodeUnit> := [58, 9, 9]
  /** `"\n\t"` */
  const Closing: seq<CodeUnit> := [10, 9]

  /** The template literal of `calculatePriority`, its line continuations removed, as code units. */
  function Render(k: PriorityKey): (p: seq<CodeUnit>)
    ensures |p| == 18
    ensures p[3] == k.chunk && p[7] == k.edge && p[11] == k.exact && p[15] == k.number
    ensures p[..3] == Opening && p[4..7] == Separator && p[8..11] == Separator && p[12..15] == Separator
    ensures p[16..] == Closing
  {
    Opening + ([k.chunk] + (Separator + ([k.edge] + (Separator + ([k.exact] + (Separator + ([k.number] + Closing)))))))
  }

  /**
   * `calculatePriority(issueKey, edgeDistance, numberGroup, chunkIndex)`.
   * Only issue keys of digits reach it (the pattern without prefix takes
   * only digits).
   */
  function CalculatePriority(issueKey: string, edgeDistance: int, numberGroup: string, chunkIndex: int): (p: seq<CodeUnit>)
    requires AllDigits(issueKey)
    ensures |p| == 18
  {
    Render(KeyOf(issueKey, edgeDistance, numberGroup, chunkIndex))
  }

  /** Field-by-field comparison of two keys. */
  function KeyCompare(a: PriorityKey, b: PriorityKey): int {
    if a.chunk != b.chunk then (if a.chunk < b.chunk then -1 else 1)
    else if a.edge != b.edge then (if a.edge < b.edge then -1 else 1)
    else if a.exact != b.exact then (if a.exact < b.exact then -1 else 1)
    else if a.number != b.number then (if a.number < b.number then -1 else 1)
    else 0
  }

  lemma {:induction false} LexCompareCommonPrefix(u: seq<CodeUnit>, x: seq<CodeUnit>, y: seq<CodeUnit>)
    ensures LexCompare(u + x, u + y) == LexCompare(x, y)
    decreases |u|
  {
    if |u| > 0 {
      var ux, uy := u + x, u + y;
      assert ux[0] == u[0] == uy[0];
      assert ux[1..] == u[1..] + x && uy[1..] == u[1..] + y;
      assert LexCompare(ux, uy) == LexCompare(ux[1..], uy[1..]);
      LexCompareCommonPrefix(u[1..], x, y);
    } else {
      assert u + x == x && u + y == y;
    }
  }

  lemma LexCompareCons(a: CodeUnit, b: CodeUnit, x: seq<CodeUnit>, y: seq<CodeUnit>)
    ensures LexCompare([a] + x, [b] + y) == if a < b then -1 else if a > b then 1 else LexCompare(x, y)
  {
    assert ([a] + x)[1..] == x && ([b] + y)[1..] == y;
  }

  /**
   * Comparing two priority strings as strings compares their keys field by
   * field: the template around the codes is the same in both.
   */
  lemma PriorityOrder(a: PriorityKey, b: PriorityKey)
    ensures LexCompare(Render(a), Render(b)) == KeyCompare(a, b)
  {
    var ra4 := [a.number] + Closing;
    var rb4 := [b.number] + Closing;
    LexCompareCons(a.number, b.number, Closing, Closing);
    LexCompareCommonPrefix(Closing, [], []);
    assert Closing + [] == Closing;
    LexCompareCommonPrefix(Separator, ra4, rb4);
    var ra3 := [a.exact] + (Separator + ra4);
    var rb3 := [b.exact] + (Separator + rb4);
    LexCompareCons(a.exact, b.exact, Separator + ra4, Separator + rb4);
    LexCompareCommonPrefix(Separator, ra3, rb3);
    var ra2 := [a.edge] + (Separator + ra3);
    var rb2 := [b.edge] + (Separator + rb3);
    LexCompareCons(a.edge, b.edge, Separator + ra3, Separator + rb3);
    LexCompareCommonPrefix(Separator, ra2, rb2);
    LexCompareCons(a.chunk, b.chunk, Separator + ra2, Separator + rb2);
    LexCompareCommonPrefix(Opening, [a.chunk] + (Separator + ra2), [b.chunk] + (Separator + rb2));
  }

  /**
   * A match in a later scanned chunk gets the greater priority, whatever its
   * other parts (while the chunk code does not wrap around).
   */
  lemma LaterChunkRanksHigher(
    keyA: string, edgeA: int, groupA: string, chunkA: nat,
    keyB: string, edgeB: int, groupB: string, chunkB: nat)
    requires AllDigits(keyA) && AllDigits(keyB)
    requires chunkA < chunkB < 0x1_0000 - LowerA
    ensures LexCompare(CalculatePriority(keyB, edgeB, groupB, chunkB), CalculatePriority(keyA, edgeA, groupA, chunkA)) > 0
  {
    ToUint16InRange(LowerA + chunkA);
    ToUint16InRange(LowerA + chunkB);
    var kb, ka := KeyOf(keyB, edgeB, groupB, chunkB), KeyOf(keyA, edgeA, groupA, chunkA);
    assert kb.chunk > ka.chunk;
    PriorityOrder(kb, ka);
  }

  /**
   * In the same chunk, a match nearer an edge gets the greater priority
   * (while `97 - edgeDistance` stays within a code unit).
   */
  lemma NearerEdgeRanksHigher(
    keyA: string, edgeA: int, groupA: string,
    keyB: string, edgeB: int, groupB: string, chunk: int)
    requires AllDigits(keyA) && AllDigits(keyB)
    requires LowerA - 0xFFFF <= edgeB < edgeA <= LowerA
    ensures LexCompare(CalculatePriority(keyB, edgeB, groupB, chunk), CalculatePriority(keyA, edgeA, groupA, chunk)) > 0
  {
    ToUint16InRange(LowerA - edgeA);
    ToUint16InRange(LowerA - edgeB);
    var kb, ka := KeyOf(keyB, edgeB, groupB, chunk), KeyOf(keyA, edgeA, groupA, chunk);
    assert kb.chunk == ka.chunk && kb.edge > ka.edge;
    PriorityOrder(kb, ka);
  }

  /** Otherwise equal, a match whose number chunk is the issue key alone gets the greater priority. */
  lemma ExactRanksHigher(
    keyA: string, groupA: string, keyB: string, groupB: string, edge: int, chunk: int)
    requires AllDigits(keyA) && AllDigits(keyB)
    requires keyA != groupA && keyB == groupB
    ensures LexCompare(CalculatePriority(keyB, edge, groupB, chunk), CalculatePriority(keyA, edge, groupA, chunk)) > 0
  {
    PriorityOrder(KeyOf(keyB, edge, groupB, chunk), KeyOf(keyA, edge, groupA, chunk));
  }

  /** Otherwise equal, the larger number gets the greater priority while `97 + number` fits a code unit. */
  lemma LargerNumberRanksHigher(keyA: string, groupA: string, keyB: string, groupB: string, edge: int, chunk: int)
    requires AllDigits(keyA) && AllDigits(keyB)
    requires (keyA == groupA) == (keyB == groupB)
    requires DecimalValue(keyA) < DecimalValue(keyB) < 0x1_0000 - LowerA
    ensures LexCompare(CalculatePriority(keyB, edge, groupB, chunk), CalculatePriority(keyA, edge, groupA, chunk)) > 0
  {
    ToUint16InRange(LowerA + DecimalValue(keyA));
    ToUint16InRange(LowerA + DecimalValue(keyB));
    var kb, ka := KeyOf(keyB, edge, groupB, chunk), KeyOf(keyA, edge, groupA, chunk);
    assert kb.chunk == ka.chunk && kb.edge == ka.edge && kb.exact == ka.exact && kb.number > ka.number;
    PriorityOrder(kb, ka);
  }

  /**
   * The number code wraps around: issue 65440 ranks below issue 12, since
   * `97 + 65440` leaves the code 1.
   */
  lemma NumberCodeWraps(edge: int, chunk: int)
    ensures LexCompare(CalculatePriority("65440", edge, "65440", chunk), CalculatePriority("12", edge, "12", chunk)) < 0
  {
    var big := "65440";
    assert big[..4] == "6544" && "6544"[..3] == "654" && "654"[..2] == "65" && "65"[..1] == "6" && "6"[..0] == "";
    assert DecimalValue(big) == 65440;
    assert "12"[..1] == "1" && "1"[..0] == "";
    assert DecimalValue("12") == 12;
    var kb, ks := KeyOf(big, edge, big, chunk), KeyOf("12", edge, "12", chunk);
    assert kb.number == 1 && ks.number == 109;
    assert kb.chunk == ks.chunk && kb.edge == ks.edge && kb.exact == ks.exact;
    PriorityOrder(kb, ks);
  }
}
