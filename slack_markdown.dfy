/**
 * The text transforms shared by the two Robusta actions: `convert_markdown_to_slack`,
 * which applies the two regular-expression rewrites `\*\*([^\*]+)\*\*` -> `*\1*` and
 * (multi-line) `^\*\s+` -> `"• "`, and `parse_combined_results`, which splits the agent's
 * combined answer at its section headers. Both actions carry identical copies; they are
 * defined once here. Each regular expression is a hand-written scanner.
 */
module SlackMarkdown {
  import opened Wrappers
  import opened Text

  const RagHeader: string := "=== RAG Results ==="
  const McpHeader: string := "=== MCP Results ==="
  const Bullet: string := "\U{2022} "

  predicate NoStar(s: string) {
    forall k :: 0 <= k < |s| ==> s[k] != '*'
  }

  /** Length of the longest prefix of `s` without a '*'. */
  function NonStarPrefixLen(s: string): (n: nat)
    ensures n <= |s| && NoStar(s[..n])
    ensures n == |s| || s[n] == '*'
  {
    if s == [] || s[0] == '*' then 0
    else
      var n := NonStarPrefixLen(s[1..]);
      assert s[..n + 1] == [s[0]] + s[1..][..n];
      n + 1
  }

  /** `s` begins with `**X**` where `X` has `n >= 1` characters, none of them '*'. */
  predicate BoldAt(s: string, n: nat) {
    1 <= n && 4 + n <= |s| && s[..2] == "**" && NoStar(s[2..2 + n]) && s[2 + n..4 + n] == "**"
  }

  /** The match of `\*\*([^\*]+)\*\*` anchored at the start of `s`: the length of the group. */
  function BoldMatch(s: string): (r: Option<nat>)
    ensures r.Some? ==> BoldAt(s, r.value)
    ensures r.None? ==> forall n: nat {:trigger BoldAt(s, n)} :: !BoldAt(s, n)
  {
    if |s| >= 2 && s[0] == '*' && s[1] == '*' then
      var n := NonStarPrefixLen(s[2..]);
      assert s[2..][..n] == s[2..2 + n];
      if n >= 1 && 4 + n <= |s| && s[3 + n] == '*' then
        assert s[2 + n..4 + n] == [s[2 + n], s[3 + n]];
        Some(n)
      else
        forall m: nat | BoldAt(s, m) ensures m == n {
          assert s[2..][..m] == s[2..2 + m];
          assert s[2..][m] == s[2 + m..4 + m][0];
          NonStarPrefixUnique(s[2..], m);
        }
        None
    else
      None
  }

  /** `re.sub(r'\*\*([^\*]+)\*\*', r'*\1*', s)`: leftmost, non-overlapping rewrites. */
  function BoldPass(s: string): (r: string)
    ensures |r| <= |s|
    ensures NoStar(s) ==> r == s
    decreases |s|
  {
    if s == [] then []
    else
      match BoldMatch(s)
      case Some(n) => "*" + s[2..2 + n] + "*" + BoldPass(s[4 + n..])
      case None => [s[0]] + BoldPass(s[1..])
  }

  /**
   * `re.sub(r'^\*\s+', '• ', s, flags=re.MULTILINE)`, where `lineStart` says whether
   * `^` holds at the first character of `s` (start of the text or just after a newline).
   */
  function BulletPass(s: string, lineStart: bool): (r: string)
    ensures |r| <= |s|
    ensures NoStar(s) ==> r == s
    decreases |s|
  {
    if s == [] then []
    else if lineStart && s[0] == '*' && SpaceRunLen(s[1..]) > 0 then
      var n := SpaceRunLen(s[1..]);
      Bullet + BulletPass(s[1 + n..], s[n] == '\n')
    else
      [s[0]] + BulletPass(s[1..], s[0] == '\n')
  }

  /** `convert_markdown_to_slack`: the bold rule, then the bullet rule. */
  function ConvertMarkdownToSlack(s: string): (r: string)
    ensures |r| <= |s|
    ensures NoStar(s) ==> r == s
  {
    BulletPass(BoldPass(s), true)
  }

  /** `parse_combined_results`: the (RAG, MCP) sections, each stripped and converted. */
  function ParseCombinedResults(s: string): (r: (string, string))
    ensures |r.0| + |r.1| <= |s|
  {
    if Contains(s, RagHeader) && Contains(s, McpHeader) then
      var parts := Split(s, McpHeader);
      JoinTwoLength(parts, McpHeader);
      var rag := Strip(ReplaceAll(parts[0], RagHeader, ""));
      ReplaceWithEmptyShrinks(parts[0], RagHeader);
      var mcp := if |parts| > 1 then Strip(parts[1]) else "";
      (ConvertMarkdownToSlack(rag), ConvertMarkdownToSlack(mcp))
    else
      (ConvertMarkdownToSlack(s), "")
  }

  /** The text up to the first MCP header of `rest`, or all of it when there is none. */
  function UpToHeader(rest: string): (r: string)
    ensures !Contains(r, McpHeader)
    ensures StartsWith(rest, r)
  {
    match FindFrom(rest, McpHeader, 0)
    case None => rest
    case Some(j) =>
      PrefixBeforeFirstIsFree(rest, McpHeader, j);
      rest[..j]
  }

  // ----- lemmas -----

  lemma JoinTwoLength(parts: seq<string>, sep: string)
    requires |parts| >= 1
    ensures |parts[0]| + (if |parts| > 1 then |sep| + |parts[1]| else 0) <= |Join(parts, sep)|
  {
    if |parts| > 2 {
      assert Join(parts[1..], sep) == parts[1] + sep + Join(parts[2..], sep);
    }
  }

  /** The star-free prefix ending at a '*' (or at the end) is the one `NonStarPrefixLen` measures. */
  lemma {:induction false} NonStarPrefixUnique(t: string, m: nat)
    requires m <= |t| && NoStar(t[..m]) && (m == |t| || t[m] == '*')
    ensures NonStarPrefixLen(t) == m
    decreases m
  {
    if m > 0 {
      assert t[0] == t[..m][0];
      assert t[1..][..m - 1] == t[..m][1..];
      NonStarPrefixUnique(t[1..], m - 1);
    }
  }

  lemma BoldAtUnique(s: string, n: nat, m: nat)
    requires BoldAt(s, n) && BoldAt(s, m)
    ensures n == m
  {
    assert s[2..][..n] == s[2..2 + n];
    assert s[2..][n] == s[2 + n..4 + n][0];
    NonStarPrefixUnique(s[2..], n);
    assert s[2..][..m] == s[2..2 + m];
    assert s[2..][m] == s[2 + m..4 + m][0];
    NonStarPrefixUnique(s[2..], m);
  }

  lemma ReplaceWithEmptyShrinks(s: string, pat: string)
    requires |pat| > 0
    ensures |ReplaceAll(s, pat, "")| <= |s|
  {
    var parts := Split(s, pat);
    JoinShrinks(parts, pat);
  }

  lemma {:induction false} JoinShrinks(parts: seq<string>, sep: string)
    ensures |Join(parts, "")| <= |Join(parts, sep)|
  {
    if |parts| > 1 {
      JoinShrinks(parts[1..], sep);
    }
  }

  /** Each `**X**` with a non-empty, star-free `X` becomes `*X*`; scanning resumes after it. */
  lemma BoldRewritesPair(x: string, rest: string)
    requires |x| >= 1 && NoStar(x)
    ensures BoldPass("**" + x + "**" + rest) == "*" + x + "*" + BoldPass(rest)
  {
    var s := "**" + x + "**" + rest;
    assert s[..2] == "**";
    assert s[2..2 + |x|] == x;
    assert s[2 + |x|..4 + |x|] == "**";
    assert BoldAt(s, |x|);
    var n := BoldMatch(s).value;
    BoldAtUnique(s, n, |x|);
    assert s[4 + |x|..] == rest;
  }

  /** Star-free text ahead of the first '*' is copied unchanged by the bold rule. */
  lemma {:induction false} BoldCopiesStarFreePrefix(p: string, t: string)
    requires NoStar(p)
    ensures BoldPass(p + t) == p + BoldPass(t)
    decreases |p|
  {
    if p != [] {
      var s := p + t;
      assert s[0] == p[0] && s[0] != '*';
      assert s[1..] == p[1..] + t;
      calc {
        BoldPass(s);
        [s[0]] + BoldPass(s[1..]);
        { BoldCopiesStarFreePrefix(p[1..], t); }
        [p[0]] + (p[1..] + BoldPass(t));
        p + BoldPass(t);
      }
    } else {
      assert p + t == t;
    }
  }

  /**
   * At a line start, '*' followed by a whitespace run `w` (which may hold newlines)
   * becomes "• "; the next line start is decided by the last character of `w`.
   */
  lemma BulletRewritesLineStart(w: string, rest: string)
    requires |w| >= 1 && AllSpace(w)
    requires rest == [] || !IsSpace(rest[0])
    ensures BulletPass("*" + w + rest, true) == Bullet + BulletPass(rest, w[|w| - 1] == '\n')
  {
    var s := "*" + w + rest;
    assert s[1..] == w + rest;
    assert SpaceRunLen(w + rest) == |w| by {
      SpaceRunOfPrefix(w, rest);
    }
    assert s[1 + |w|..] == rest;
    assert s[|w|] == w[|w| - 1];
  }

  lemma {:induction false} SpaceRunOfPrefix(w: string, rest: string)
    requires AllSpace(w)
    requires rest == [] || !IsSpace(rest[0])
    ensures SpaceRunLen(w + rest) == |w|
    decreases |w|
  {
    if w != [] {
      assert (w + rest)[1..] == w[1..] + rest;
      SpaceRunOfPrefix(w[1..], rest);
    } else {
      assert w + rest == rest;
    }
  }

  /** A '*' that is not at a line start, or not followed by whitespace, is kept. */
  lemma BulletKeepsOtherStars(rest: string, lineStart: bool)
    requires !lineStart || rest == [] || !IsSpace(rest[0])
    ensures BulletPass("*" + rest, lineStart) == "*" + BulletPass(rest, false)
  {
    var s := "*" + rest;
    assert s[1..] == rest;
  }

  /**
   * The sections `parse_combined_results` cuts out. With both headers, the RAG part is
   * the text before the first MCP header with every RAG header deleted, and the MCP part
   * is the text between the first MCP header and the next one (or the end), so anything
   * after a second MCP header is dropped. Without both headers, everything is RAG text.
   */
  lemma ParsedSections(s: string)
    ensures !(Contains(s, RagHeader) && Contains(s, McpHeader)) ==>
      ParseCombinedResults(s) == (ConvertMarkdownToSlack(s), "")
    ensures Contains(s, RagHeader) && Contains(s, McpHeader) ==>
      var i := FindFrom(s, McpHeader, 0).value;
      ParseCombinedResults(s) ==
        (ConvertMarkdownToSlack(Strip(ReplaceAll(s[..i], RagHeader, ""))),
         ConvertMarkdownToSlack(Strip(UpToHeader(s[i + |McpHeader|..]))))
  {
    if Contains(s, RagHeader) && Contains(s, McpHeader) {
      var i := FindFrom(s, McpHeader, 0).value;
      var rest := s[i + |McpHeader|..];
      var parts := Split(s, McpHeader);
      assert parts == [s[..i]] + Split(rest, McpHeader);
      assert Split(rest, McpHeader)[0] == UpToHeader(rest);
    }
  }
}
