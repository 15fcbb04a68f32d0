/**
 * The character classes of JavaScript regular expressions (without the `u`
 * flag) that the autolink matchers use, and the `<num>` placeholder
 * substitution `template.replace(/<num>/g, id)`.
 */
module JsText {

  /** `\d` */
  predicate IsDigit(c: char) {
    '0' <= c <= '9'
  }

  /** `\w`: ASCII letters, digits and `_`. */
  predicate IsWordChar(c: char) {
    IsDigit(c) || 'a' <= c <= 'z' || 'A' <= c <= 'Z' || c == '_'
  }

  /** `\w` when `alphanumeric`, `\d` otherwise: the characters of a reference number. */
  predicate IsIdChar(alphanumeric: bool, c: char) {
    if alphanumeric then IsWordChar(c) else IsDigit(c)
  }

  /** The end of the longest run of id characters from `i`: where a greedy `\d+` or `\w+` stops. */
  function IdRunEnd(s: string, i: nat, alphanumeric: bool): (e: nat)
    requires i <= |s|
    ensures i <= e <= |s|
    ensures forall k | i <= k < e :: IsIdChar(alphanumeric, s[k])
    ensures e == |s| || !IsIdChar(alphanumeric, s[e])
    decreases |s| - i
  {
    if i < |s| && IsIdChar(alphanumeric, s[i]) then IdRunEnd(s, i + 1, alphanumeric) else i
  }

  /** The characters at which `^` and `$` match inside a string under the `m` flag. */
  predicate IsLineTerminator(c: char) {
    c == '\n' || c == '\r' || c == '\U{2028}' || c == '\U{2029}'
  }

  /** `\s`: the white space and line terminator characters of ECMAScript. */
  predicate IsJsSpace(c: char) {
    || c == '\t' || c == '\U{B}' || c == '\U{C}' || c == ' ' || c == '\U{A0}' || c == '\U{1680}'
    || ('\U{2000}' <= c <= '\U{200A}') || c == '\U{202F}' || c == '\U{205F}' || c == '\U{3000}' || c == '\U{FEFF}'
    || IsLineTerminator(c)
  }

  /** Case folding of the `i` flag, for ASCII letters. */
  function AsciiLower(c: char): char {
    if 'A' <= c <= 'Z' then (c as int + 32) as char else c
  }

  /** `a` and `b` are equal up to the case of ASCII letters. */
  predicate SameIgnoringCase(a: string, b: string) {
    |a| == |b| && forall k :: 0 <= k < |a| ==> AsciiLower(a[k]) == AsciiLower(b[k])
  }

  /** `s` starts with `prefix` at `q`, compared exactly or, with `ignoreCase`, up to ASCII case. */
  predicate LiteralAt(s: string, q: nat, prefix: string, ignoreCase: bool) {
    && q + |prefix| <= |s|
    && (if ignoreCase then SameIgnoringCase(s[q..q + |prefix|], prefix) else s[q..q + |prefix|] == prefix)
  }

  // ------------------------------------------------------------ placeholder

  const Placeholder: string := "<num>"

  /** `<num>` occurs in `s` at `k`. */
  predicate PlaceholderAt(s: string, k: int) {
    0 <= k && k + 5 <= |s| && s[k..k + 5] == Placeholder
  }

  predicate PlaceholderFree(s: string) {
    forall k | 0 <= k < |s| :: !PlaceholderAt(s, k)
  }

  /**
   * `template.replace(/<num>/g, id)`: every occurrence of `<num>` found by a
   * left-to-right scan of the template is replaced by `id`; the inserted
   * text is not scanned again.  (The ids the scanners substitute are made
   * of word characters, so JavaScript's `$` replacement patterns never
   * arise.)  Each replacement changes the length by `|id| - 5`, so the
   * result is no shorter than the template when `id` has at least five
   * characters, and no longer when it has at most five.
   */
  function Replace(template: string, id: string): (r: string)
    ensures |id| >= |Placeholder| ==> |r| >= |template|
    ensures |id| <= |Placeholder| ==> |r| <= |template|
    decreases |template|
  {
    if |template| == 0 then ""
    else if PlaceholderAt(template, 0) then id + Replace(template[5..], id)
    else [template[0]] + Replace(template[1..], id)
  }

  /** A template without `<num>` is returned unchanged. */
  lemma {:induction false} ReplaceWithoutPlaceholder(template: string, id: string)
    requires PlaceholderFree(template)
    ensures Replace(template, id) == template
    decreases |template|
  {
    if |template| > 0 {
      assert !PlaceholderAt(template, 0);
      forall k ensures !PlaceholderAt(template[1..], k) {
        if PlaceholderAt(template[1..], k) {
          assert template[k + 1..k + 6] == template[1..][k..k + 5];
          assert PlaceholderAt(template, k + 1);
        }
      }
      ReplaceWithoutPlaceholder(template[1..], id);
    }
  }

  /** Characters of `<num>`. */
  predicate IsPlaceholderChar(c: char) {
    c == '<' || c == 'n' || c == 'u' || c == 'm' || c == '>'
  }

  /** A placeholder at the head of the template puts the id at the head of the result. */
  lemma ReplaceHead(u: string, id: string)
    requires |id| > 0
    ensures PlaceholderAt(u, 0) ==> |Replace(u, id)| > 0 && Replace(u, id)[0] == id[0]
  {
  }

  /**
   * With a non-empty id that shares no character with `<num>`, a prefix of
   * the result made of `n`, `u`, `m` and `>` was copied from the template.
   */
  lemma {:induction false} LiteralPrefix(u: string, id: string, w: string)
    requires |id| > 0 && forall k :: 0 <= k < |id| ==> !IsPlaceholderChar(id[k])
    requires forall k :: 0 <= k < |w| ==> w[k] == 'n' || w[k] == 'u' || w[k] == 'm' || w[k] == '>'
    ensures |w| <= |Replace(u, id)| && Replace(u, id)[..|w|] == w ==> |w| <= |u| && u[..|w|] == w
    decreases |u|
  {
    if |w| > 0 && |u| > 0 {
      ReplaceHead(u, id);
      if !PlaceholderAt(u, 0) {
        var rest := Replace(u[1..], id);
        assert Replace(u, id) == [u[0]] + rest;
        LiteralPrefix(u[1..], id, w[1..]);
        if |w| <= |Replace(u, id)| {
          assert Replace(u, id)[..|w|] == [u[0]] + rest[..|w| - 1];
        }
        if |w| <= |u| {
          assert u[..|w|] == [u[0]] + u[1..][..|w| - 1];
        }
      }
    }
  }

  /**
   * No `<num>` survives the substitution when the id is non-empty and shares
   * no character with `<num>` (every id of a numeric reference).
   */
  lemma {:induction false} ReplaceLeavesNoPlaceholder(template: string, id: string)
    requires |id| > 0 && forall k :: 0 <= k < |id| ==> !IsPlaceholderChar(id[k])
    ensures PlaceholderFree(Replace(template, id))
    decreases |template|
  {
    var r := Replace(template, id);
    if |template| == 0 {
      assert r == "";
    } else if PlaceholderAt(template, 0) {
      var rest := Replace(template[5..], id);
      ReplaceLeavesNoPlaceholder(template[5..], id);
      assert r == id + rest;
      forall k | 0 <= k < |r| ensures !PlaceholderAt(r, k) {
        if k < |id| {
          if k + 5 <= |r| {
            assert r[k..k + 5][0] == r[k] == id[k] && Placeholder[0] == '<';
          }
        } else if k + 5 <= |r| {
          assert rest[k - |id|..k - |id| + 5] == r[k..k + 5];
          assert !PlaceholderAt(rest, k - |id|);
        }
      }
    } else {
      var rest := Replace(template[1..], id);
      ReplaceLeavesNoPlaceholder(template[1..], id);
      assert r == [template[0]] + rest;
      forall k | 0 <= k < |r| ensures !PlaceholderAt(r, k) {
        if k == 0 {
          LiteralPrefix(template[1..], id, "num>");
          if 5 <= |r| {
            assert r[0] == template[0] && r[1..5] == rest[..4];
            assert r[..5][0] == r[0] && r[..5][1..] == r[1..5];
          }
          if 5 <= |template| {
            assert template[..5] == [template[0]] + template[1..][..4];
          }
        } else if k + 5 <= |r| {
          assert rest[k - 1..k + 4] == r[k..k + 5];
          assert !PlaceholderAt(rest, k - 1);
        }
      }
    }
  }

  /**
   * The substitution is not closed for ids made of the placeholder's own
   * letters: an alphanumeric id `num` turns `<<num>>` into `<num>`.
   */
  lemma ReplaceCanLeavePlaceholder()
    ensures Replace("<<num>>", "num") == "<num>"
  {
    var t := "<<num>>";
    assert t[..5][1] != Placeholder[1];
    assert t[1..] == "<num>>" && PlaceholderAt(t[1..], 0);
    assert t[1..][5..] == ">" && !PlaceholderAt(">", 0);
    assert Replace(">", "num") == ">" + Replace("", "num");
  }
}
