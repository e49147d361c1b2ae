/**
 * The plain-text summary of `_summarize_basic` in `news/summarizer.py`, from the
 * point where the HTML parser has produced the description's visible text:
 * collapse whitespace, delete every non-whitespace run of 50 or more characters,
 * strip, then truncate with an ellipsis or fall back to a placeholder.
 */
module Cleanup {
  import opened TextUtil
  import opened Wrappers
  import opened NewsModel

  /** Runs of this many non-whitespace characters (`\S{50,}`) are deleted. */
  const LongTokenLength: nat := 50
  const NoSummary: string := "요약 정보 없음"
  const Ellipsis: string := "..."

  /** The non-whitespace characters of `s`, in order. */
  function NonSpace(s: string): string {
    if s == [] then [] else (if IsSpace(s[0]) then [] else [s[0]]) + NonSpace(s[1..])
  }

  /** `s.lstrip()`: the suffix left after removing leading whitespace. */
  function LStrip(s: string): (r: string)
    ensures |r| <= |s| && r == s[|s| - |r|..]
    ensures forall k :: 0 <= k < |s| - |r| ==> IsSpace(s[k])
    ensures r == [] || !IsSpace(r[0])
    ensures NonSpace(r) == NonSpace(s)
  {
    if s != [] && IsSpace(s[0]) then
      assert NonSpace(s) == NonSpace(s[1..]) by {
        assert NonSpace(s) == [] + NonSpace(s[1..]);
      }
      LStrip(s[1..])
    else s
  }

  /** `s.rstrip()`: the prefix left after removing trailing whitespace. */
  function RStrip(s: string): (r: string)
    ensures |r| <= |s| && r == s[..|r|]
    ensures forall k :: |r| <= k < |s| ==> IsSpace(s[k])
    ensures r == [] || !IsSpace(r[|r| - 1])
  {
    if s != [] && IsSpace(s[|s| - 1]) then RStrip(s[..|s| - 1]) else s
  }

  /** `r` is the slice of `s` starting at `a` with only whitespace before and after it. */
  ghost predicate TrimmedAt(s: string, r: string, a: int) {
    && 0 <= a <= |s| - |r|
    && r == s[a..a + |r|]
    && (forall k :: 0 <= k < a ==> IsSpace(s[k]))
    && (forall k :: a + |r| <= k < |s| ==> IsSpace(s[k]))
  }

  /** `s.strip()`: exactly the leading and the trailing whitespace is removed. */
  function Strip(s: string): (r: string)
    ensures r == [] || (!IsSpace(r[0]) && !IsSpace(r[|r| - 1]))
    ensures exists a :: TrimmedAt(s, r, a)
  {
    StripTrims(s);
    RStrip(LStrip(s))
  }

  lemma StripTrims(s: string)
    ensures TrimmedAt(s, RStrip(LStrip(s)), |s| - |LStrip(s)|)
  {
    var l := LStrip(s);
    TrimmedAtSlices(s, l, RStrip(l), |s| - |l|);
  }

  /** Leading whitespace cut from `s`, then trailing whitespace cut from what is left. */
  lemma TrimmedAtSlices(s: string, l: string, r: string, a: int)
    requires 0 <= a <= |s| && l == s[a..] && |r| <= |l| && r == l[..|r|]
    requires forall k :: 0 <= k < a ==> IsSpace(s[k])
    requires forall k :: |r| <= k < |l| ==> IsSpace(l[k])
    ensures TrimmedAt(s, r, a)
  {
    assert s[a..][..|r|] == s[a..a + |r|];
    forall k | a + |r| <= k < |s| ensures IsSpace(s[k]) {
      assert s[k] == l[k - a];
    }
  }

  /** `re.sub(r'\s+', ' ', s)`: every maximal whitespace run becomes one space. */
  function Collapse(s: string): string
    decreases |s|
  {
    if s == [] then []
    else if IsSpace(s[0]) then " " + Collapse(LStrip(s[1..]))
    else [s[0]] + Collapse(s[1..])
  }

  lemma NonSpaceCons(c: char, t: string)
    ensures NonSpace([c] + t) == (if IsSpace(c) then [] else [c]) + NonSpace(t)
  {
    assert ([c] + t)[1..] == t;
  }

  /** Text in the shape `Collapse` produces. */
  ghost predicate Collapsed(s: string) {
    && (forall i :: 0 <= i < |s| && IsSpace(s[i]) ==> s[i] == ' ')
    && (forall i :: 0 < i < |s| && IsSpace(s[i]) ==> !IsSpace(s[i - 1]))
  }

  lemma CollapsedTail(s: string)
    requires Collapsed(s) && s != []
    ensures Collapsed(s[1..])
    ensures IsSpace(s[0]) ==> s[0] == ' ' && (|s| == 1 || !IsSpace(s[1]))
  {
    var t := s[1..];
    assert forall i :: 0 <= i < |t| ==> t[i] == s[i + 1];
  }

  /** Text already in that shape is its own collapse. */
  lemma {:induction false} CollapseFixpoint(s: string)
    requires Collapsed(s)
    ensures Collapse(s) == s
  {
    if s != [] {
      var t := s[1..];
      CollapsedTail(s);
      CollapseFixpoint(t);
      if IsSpace(s[0]) {
        assert t == [] || t[0] == s[1];
        assert LStrip(t) == t;
      }
      assert s == [s[0]] + t;
    }
  }

  /**
   * After collapsing, the only whitespace left is single spaces, and the text
   * starts with a space exactly when the input starts with whitespace.
   */
  lemma {:induction false} CollapseShape(s: string)
    ensures Collapsed(Collapse(s))
    ensures (Collapse(s) != [] && IsSpace(Collapse(s)[0])) <==> (s != [] && IsSpace(s[0]))
    decreases |s|
  {
    if s != [] {
      if IsSpace(s[0]) {
        var t := LStrip(s[1..]);
        CollapseShape(t);
        ConsCollapsed(' ', Collapse(t));
      } else {
        CollapseShape(s[1..]);
        ConsCollapsed(s[0], Collapse(s[1..]));
      }
    }
  }

  /** Putting a character in front keeps the shape, unless it doubles a space or is other whitespace. */
  lemma ConsCollapsed(c: char, rest: string)
    requires Collapsed(rest)
    requires IsSpace(c) ==> c == ' ' && (rest == [] || !IsSpace(rest[0]))
    ensures Collapsed([c] + rest)
  {
    var r := [c] + rest;
    assert forall i :: 0 < i < |r| ==> r[i] == rest[i - 1];
  }

  /** Collapsing keeps every non-whitespace character, in order. */
  lemma {:induction false} CollapseNonSpace(s: string)
    ensures NonSpace(Collapse(s)) == NonSpace(s)
    decreases |s|
  {
    if s != [] {
      assert [s[0]] + s[1..] == s;
      NonSpaceCons(s[0], s[1..]);
      if IsSpace(s[0]) {
        var t := LStrip(s[1..]);
        CollapseNonSpace(t);
        NonSpaceCons(' ', Collapse(t));
      } else {
        CollapseNonSpace(s[1..]);
        NonSpaceCons(s[0], Collapse(s[1..]));
      }
    }
  }

  /** Collapsing whitespace twice changes nothing more. */
  lemma CollapseIdempotent(s: string)
    ensures Collapse(Collapse(s)) == Collapse(s)
  {
    CollapseShape(s);
    CollapseFixpoint(Collapse(s));
  }

  ghost predicate HasSpace(t: string) {
    exists k :: 0 <= k < |t| && IsSpace(t[k])
  }

  /** Every stretch of 50 or more characters contains whitespace. */
  ghost predicate NoLongToken(s: string) {
    forall i, j :: 0 <= i <= j <= |s| && j - i >= LongTokenLength ==> HasSpace(s[i..j])
  }

  /** The length of the non-whitespace run `s` starts with. */
  function TokenLength(s: string): (k: nat)
    ensures k <= |s|
    ensures forall i :: 0 <= i < k ==> !IsSpace(s[i])
    ensures k < |s| ==> IsSpace(s[k])
  {
    if s == [] || IsSpace(s[0]) then 0 else 1 + TokenLength(s[1..])
  }

  lemma {:induction false} NoLongTokenSlice(s: string, a: nat, b: nat)
    requires a <= b <= |s|
    ensures NoLongToken(s) ==> NoLongToken(s[a..b])
  {
    if NoLongToken(s) {
      var t := s[a..b];
      forall i, j | 0 <= i <= j <= |t| && j - i >= LongTokenLength ensures HasSpace(t[i..j]) {
        assert |t| == b - a;
        assert forall k :: 0 <= k < j - i ==> t[i..j][k] == s[a + i..a + j][k];
        assert t[i..j] == s[a + i..a + j];
      }
    }
  }

  lemma {:induction false} NoLongTokenAfterSpace(c: char, t: string)
    requires IsSpace(c) && NoLongToken(t)
    ensures NoLongToken([c] + t)
  {
    var s := [c] + t;
    forall i, j | 0 <= i <= j <= |s| && j - i >= LongTokenLength ensures HasSpace(s[i..j]) {
      if i == 0 {
        assert s[i..j][0] == c;
      } else {
        assert s[i..j] == t[i - 1..j - 1];
      }
    }
  }

  lemma {:induction false} NoLongTokenAfterShortToken(w: string, t: string)
    requires |w| < LongTokenLength && NoLongToken(t) && (t == [] || IsSpace(t[0]))
    ensures NoLongToken(w + t)
  {
    var s := w + t;
    forall i, j | 0 <= i <= j <= |s| && j - i >= LongTokenLength ensures HasSpace(s[i..j]) {
      if i <= |w| {
        assert s[i..j][|w| - i] == t[0];
      } else {
        assert s[i..j] == t[i - |w|..j - |w|];
      }
    }
  }

  /**
   * `re.sub(r'\S{50,}', '', s)`: each maximal non-whitespace run of 50 or more
   * characters is deleted, whitespace and shorter runs stay.
   */
  function RemoveLongTokens(s: string): string
    decreases |s|
  {
    if s == [] then []
    else if IsSpace(s[0]) then [s[0]] + RemoveLongTokens(s[1..])
    else
      var k := TokenLength(s);
      (if k >= LongTokenLength then [] else s[..k]) + RemoveLongTokens(s[k..])
  }

  /** Whitespace at the front survives. */
  lemma {:induction false} RemoveLongTokensFront(s: string)
    requires s != [] && IsSpace(s[0])
    ensures RemoveLongTokens(s) != [] && RemoveLongTokens(s)[0] == s[0]
  {
  }

  /** The result has no run of 50 or more non-whitespace characters. */
  lemma {:induction false} RemoveLongTokensClean(s: string)
    ensures NoLongToken(RemoveLongTokens(s))
    decreases |s|
  {
    if s != [] {
      if IsSpace(s[0]) {
        RemoveLongTokensClean(s[1..]);
        NoLongTokenAfterSpace(s[0], RemoveLongTokens(s[1..]));
      } else {
        var k := TokenLength(s);
        var rest := RemoveLongTokens(s[k..]);
        var kept := if k >= LongTokenLength then [] else s[..k];
        RemoveLongTokensClean(s[k..]);
        if s[k..] != [] {
          assert s[k..][0] == s[k];
          RemoveLongTokensFront(s[k..]);
        }
        NoLongTokenAfterShortToken(kept, rest);
        assert RemoveLongTokens(s) == kept + rest;
      }
    }
  }

  /** A leading run of 50 or more non-whitespace characters is a long token. */
  lemma LongRunIsLongToken(s: string)
    ensures TokenLength(s) >= LongTokenLength ==> !NoLongToken(s)
  {
    if TokenLength(s) >= LongTokenLength {
      assert !HasSpace(s[0..LongTokenLength]);
    }
  }

  /** Text that has no such run comes back unchanged. */
  lemma {:induction false} RemoveLongTokensKeeps(s: string)
    requires NoLongToken(s)
    ensures RemoveLongTokens(s) == s
    decreases |s|
  {
    if s != [] {
      var k := if IsSpace(s[0]) then 1 else TokenLength(s);
      KeptFront(s);
      NoLongTokenSuffix(s, k);
      RemoveLongTokensKeeps(s[k..]);
      assert s[..k] + s[k..] == s;
    }
  }

  /** Without a long run, the front of `s` that `RemoveLongTokens` handles in one step is kept. */
  lemma KeptFront(s: string)
    requires s != [] && NoLongToken(s)
    ensures IsSpace(s[0]) ==> RemoveLongTokens(s) == s[..1] + RemoveLongTokens(s[1..])
    ensures !IsSpace(s[0]) ==> RemoveLongTokens(s) == s[..TokenLength(s)] + RemoveLongTokens(s[TokenLength(s)..])
  {
    LongRunIsLongToken(s);
    assert s[..1] == [s[0]];
  }

  lemma NoLongTokenSuffix(s: string, k: nat)
    requires k <= |s| && NoLongToken(s)
    ensures NoLongToken(s[k..])
  {
    NoLongTokenSlice(s, k, |s|);
    assert s[k..|s|] == s[k..];
  }

  /** `s.split()`: the maximal non-whitespace runs of `s`, in order. */
  function Words(s: string): seq<string>
    decreases |s|
  {
    if s == [] then []
    else if IsSpace(s[0]) then Words(s[1..])
    else
      var k := TokenLength(s);
      [s[..k]] + Words(s[k..])
  }

  /** The whitespace characters of `s`, in order. */
  function Whitespace(s: string): string {
    if s == [] then [] else (if IsSpace(s[0]) then [s[0]] else []) + Whitespace(s[1..])
  }

  ghost predicate EndsWithSpace(s: string) {
    s != [] && IsSpace(s[|s| - 1])
  }

  lemma WordsSpaceCons(c: char, t: string)
    requires IsSpace(c)
    ensures Words([c] + t) == Words(t)
    ensures Whitespace([c] + t) == [c] + Whitespace(t)
  {
    assert ([c] + t)[1..] == t;
  }

  /** A run of non-whitespace followed by whitespace or by nothing is one word. */
  lemma WordsTokenCons(w: string, t: string)
    requires w != [] && forall i :: 0 <= i < |w| ==> !IsSpace(w[i])
    requires t == [] || IsSpace(t[0])
    ensures Words(w + t) == [w] + Words(t)
  {
    var s := w + t;
    assert forall i :: 0 <= i < |w| ==> s[i] == w[i];
    assert t != [] ==> s[|w|] == t[0];
    assert TokenLength(s) == |w|;
    assert s[..|w|] == w;
    assert s[|w|..] == t;
  }

  /** Skipping `k` non-whitespace characters skips no whitespace. */
  lemma {:induction false} WhitespaceSkip(s: string, k: nat)
    requires k <= |s| && forall i :: 0 <= i < k ==> !IsSpace(s[i])
    ensures Whitespace(s) == Whitespace(s[k..])
  {
    if k > 0 {
      assert s[1..][k - 1..] == s[k..];
      WhitespaceSkip(s[1..], k - 1);
    }
  }

  lemma {:induction false} WordsLStrip(s: string)
    ensures Words(LStrip(s)) == Words(s)
    decreases |s|
  {
    if s != [] && IsSpace(s[0]) {
      WordsLStrip(s[1..]);
    }
  }

  /** A leading run of non-whitespace is copied through `Collapse` as it is. */
  lemma {:induction false} CollapseToken(s: string, k: nat)
    requires k <= |s| && forall i :: 0 <= i < k ==> !IsSpace(s[i])
    ensures Collapse(s) == s[..k] + Collapse(s[k..])
  {
    if k == 0 {
      assert s[..k] == [] && s[k..] == s;
    } else {
      var t := s[1..];
      CollapseNonSpaceFront(s);
      TokenTail(s, k);
      CollapseToken(t, k - 1);
      ConsConcat(s[0], t[..k - 1], Collapse(t[k - 1..]));
    }
  }

  lemma CollapseNonSpaceFront(s: string)
    requires s != [] && !IsSpace(s[0])
    ensures Collapse(s) == [s[0]] + Collapse(s[1..])
  {
  }

  /** After the first character, the rest of the run is a run one shorter. */
  lemma TokenTail(s: string, k: nat)
    requires 0 < k <= |s| && forall i :: 0 <= i < k ==> !IsSpace(s[i])
    ensures forall i :: 0 <= i < k - 1 ==> !IsSpace(s[1..][i])
    ensures s[1..][k - 1..] == s[k..] && [s[0]] + s[1..][..k - 1] == s[..k]
  {
    assert forall i :: 0 <= i < k - 1 ==> s[1..][i] == s[i + 1];
  }

  lemma ConsConcat(c: char, x: string, y: string)
    ensures [c] + (x + y) == ([c] + x) + y
  {
  }

  /** Collapsing keeps the words: no word is split, joined or lost. */
  lemma {:induction false} CollapseWords(s: string)
    ensures Words(Collapse(s)) == Words(s)
    decreases |s|
  {
    if s != [] {
      if IsSpace(s[0]) {
        var t := LStrip(s[1..]);
        CollapseWords(t);
        WordsSpaceCons(' ', Collapse(t));
        WordsLStrip(s[1..]);
      } else {
        var k := TokenLength(s);
        var rest := s[k..];
        CollapseToken(s, k);
        CollapseWords(rest);
        CollapseShape(rest);
        assert rest != [] ==> rest[0] == s[k];
        assert forall i :: 0 <= i < k ==> s[..k][i] == s[i];
        WordsTokenCons(s[..k], Collapse(rest));
      }
    }
  }

  lemma EndsWithSpaceCons(c: char, t: string)
    ensures EndsWithSpace([c] + t) == if t == [] then IsSpace(c) else EndsWithSpace(t)
  {
    if t != [] {
      assert ([c] + t)[|t|] == t[|t| - 1];
    }
  }

  /** The collapsed text ends with a space exactly when the input ends with whitespace. */
  lemma {:induction false} CollapseEnd(s: string)
    ensures EndsWithSpace(Collapse(s)) == EndsWithSpace(s)
    decreases |s|
  {
    if s != [] {
      var u := s[1..];
      EndsWithSpaceCons(s[0], u);
      assert [s[0]] + u == s;
      if IsSpace(s[0]) {
        var t := LStrip(u);
        CollapseEnd(t);
        EndsWithSpaceCons(' ', Collapse(t));
        if t != [] {
          assert t[|t| - 1] == u[|u| - 1];
        } else if u != [] {
          assert IsSpace(u[|u| - 1]);
        }
      } else {
        CollapseEnd(u);
        EndsWithSpaceCons(s[0], Collapse(u));
      }
    }
  }

  /** The words of `ws` shorter than 50 characters, in order. */
  function ShortWords(ws: seq<string>): seq<string> {
    if ws == [] then [] else (if |ws[0]| < LongTokenLength then [ws[0]] else []) + ShortWords(ws[1..])
  }

  /** `RemoveLongTokens` keeps exactly the words shorter than 50 characters, in order. */
  lemma {:induction false} RemoveLongTokensWords(s: string)
    ensures Words(RemoveLongTokens(s)) == ShortWords(Words(s))
    decreases |s|
  {
    if s != [] {
      if IsSpace(s[0]) {
        RemoveLongTokensWords(s[1..]);
        WordsSpaceCons(s[0], RemoveLongTokens(s[1..]));
      } else {
        var k := TokenLength(s);
        var w := s[..k];
        var rest := RemoveLongTokens(s[k..]);
        RemoveLongTokensWords(s[k..]);
        if s[k..] != [] {
          assert s[k..][0] == s[k];
          RemoveLongTokensFront(s[k..]);
        }
        assert forall i :: 0 <= i < k ==> w[i] == s[i];
        WordsKeptToken(w, rest, Words(s[k..]));
        assert RemoveLongTokens(s) == (if |w| >= LongTokenLength then [] else w) + rest;
        assert Words(s) == [w] + Words(s[k..]);
      }
    }
  }

  /** One word of the input: dropped when long, kept when short, with the rest's words after it. */
  lemma WordsKeptToken(w: string, rest: string, ws: seq<string>)
    requires w != [] && forall i :: 0 <= i < |w| ==> !IsSpace(w[i])
    requires rest == [] || IsSpace(rest[0])
    requires Words(rest) == ShortWords(ws)
    ensures Words((if |w| >= LongTokenLength then [] else w) + rest) == ShortWords([w] + ws)
  {
    ShortWordsCons(w, ws);
    if |w| < LongTokenLength {
      WordsTokenCons(w, rest);
    } else {
      assert [] + rest == rest;
    }
  }

  lemma ShortWordsCons(w: string, ws: seq<string>)
    ensures ShortWords([w] + ws) == (if |w| < LongTokenLength then [w] else []) + ShortWords(ws)
  {
    assert ([w] + ws)[0] == w && ([w] + ws)[1..] == ws;
  }

  /** `RemoveLongTokens` keeps every whitespace character, in order. */
  lemma {:induction false} RemoveLongTokensWhitespace(s: string)
    ensures Whitespace(RemoveLongTokens(s)) == Whitespace(s)
    decreases |s|
  {
    if s != [] {
      if IsSpace(s[0]) {
        RemoveLongTokensWhitespace(s[1..]);
        WordsSpaceCons(s[0], RemoveLongTokens(s[1..]));
        WordsSpaceCons(s[0], s[1..]);
        assert [s[0]] + s[1..] == s;
      } else {
        var k := TokenLength(s);
        var kept := if k >= LongTokenLength then [] else s[..k];
        var rest := RemoveLongTokens(s[k..]);
        RemoveLongTokensWhitespace(s[k..]);
        WhitespaceSkip(s, k);
        assert (kept + rest)[|kept|..] == rest;
        assert forall i :: 0 <= i < |kept| ==> (kept + rest)[i] == s[i];
        WhitespaceSkip(kept + rest, |kept|);
        assert RemoveLongTokens(s) == kept + rest;
      }
    }
  }

  /** The cleanup chain; an empty description is left as it is. */
  function CleanDescription(description: string, getText: string -> string): string {
    if description != "" then Strip(RemoveLongTokens(Collapse(getText(description)))) else description
  }

  /** After cleanup no run of 50 or more non-whitespace characters is left, and no edge whitespace. */
  lemma CleanDescriptionNoLongToken(description: string, getText: string -> string)
    ensures var d := CleanDescription(description, getText);
      NoLongToken(d) && (d == [] || (!IsSpace(d[0]) && !IsSpace(d[|d| - 1])))
  {
    if description != "" {
      var t := RemoveLongTokens(Collapse(getText(description)));
      RemoveLongTokensClean(Collapse(getText(description)));
      var l := LStrip(t);
      assert l == t[|t| - |l|..|t|];
      NoLongTokenSlice(t, |t| - |l|, |t|);
      var r := RStrip(l);
      assert r == l[0..|r|];
      NoLongTokenSlice(l, 0, |r|);
      assert CleanDescription(description, getText) == r;
    }
  }

  /**
   * The final conditional of `_summarize_basic` on the cleaned text `d`: the
   * placeholder when `d` is empty, `d` itself when it fits, else its first
   * `maxLength` characters followed by `'...'`.
   */
  function Truncate(d: string, maxLength: nat): (r: string)
    ensures d == "" ==> r == NoSummary
    ensures d != "" && |d| <= maxLength ==> r == d
    ensures |d| > maxLength ==> r == d[..maxLength] + Ellipsis && |r| == maxLength + |Ellipsis|
    ensures r != ""
    ensures r == NoSummary || |r| <= maxLength + |Ellipsis|
  {
    if d != "" && |d| > maxLength then d[..maxLength] + Ellipsis
    else if d != "" then d
    else NoSummary
  }

  /** `_summarize_basic`: the cleanup chain on the description, then the truncation. */
  function SummarizeBasic(a: Article, maxLength: nat, getText: string -> string): string {
    Truncate(CleanDescription(a.description.GetOr(""), getText), maxLength)
  }

  /** A single-line cleaned text gives a single-line summary. */
  lemma TruncateOneLine(d: string, maxLength: nat)
    requires '\n' !in d
    ensures '\n' !in Truncate(d, maxLength)
  {
    var r := Truncate(d, maxLength);
    if |d| > maxLength {
      forall i | 0 <= i < |r| ensures r[i] != '\n' {
        if i < maxLength {
          assert r[i] == d[i];
        } else {
          assert r[i] == Ellipsis[i - maxLength];
        }
      }
    }
  }

  lemma CollapseNoNewline(s: string)
    ensures '\n' !in Collapse(s)
  {
    var r := Collapse(s);
    CollapseShape(s);
    forall i | 0 <= i < |r| ensures r[i] != '\n' {
      assert IsSpace('\n');
    }
  }

  lemma {:induction false} RemoveLongTokensNoNewline(s: string)
    requires '\n' !in s
    ensures '\n' !in RemoveLongTokens(s)
    decreases |s|
  {
    if s != [] {
      if IsSpace(s[0]) {
        RemoveLongTokensNoNewline(s[1..]);
      } else {
        var k := TokenLength(s);
        assert forall i :: 0 <= i < |s| - k ==> s[k..][i] == s[k + i];
        RemoveLongTokensNoNewline(s[k..]);
        assert forall i :: 0 <= i < k ==> s[..k][i] == s[i];
      }
    }
  }

  lemma StripNoNewline(t: string)
    requires '\n' !in t
    ensures '\n' !in Strip(t)
  {
    var l := LStrip(t);
    forall i | 0 <= i < |l| ensures l[i] != '\n' {
      assert l[i] == t[|t| - |l| + i];
    }
    var r := RStrip(l);
    forall i | 0 <= i < |r| ensures r[i] != '\n' {
      assert r[i] == l[i];
    }
    assert Strip(t) == r;
  }

  /** The cleanup chain leaves no newline: collapsing turned every one into a space. */
  lemma CleanNoNewline(t: string)
    ensures '\n' !in Strip(RemoveLongTokens(Collapse(t)))
  {
    CollapseNoNewline(t);
    RemoveLongTokensNoNewline(Collapse(t));
    StripNoNewline(RemoveLongTokens(Collapse(t)));
  }

  /** A summary is a single line. */
  lemma SummaryOneLine(a: Article, maxLength: nat, getText: string -> string)
    ensures '\n' !in SummarizeBasic(a, maxLength, getText)
  {
    var description := a.description.GetOr("");
    if description != "" {
      CleanNoNewline(getText(description));
    }
    TruncateOneLine(CleanDescription(description, getText), maxLength);
  }

  /** Text that is already clean (single spaces, no long run, no edge whitespace) passes the cleanup unchanged. */
  lemma CleanFixpoint(t: string)
    requires Collapsed(t) && NoLongToken(t) && (t == [] || (!IsSpace(t[0]) && !IsSpace(t[|t| - 1])))
    ensures Strip(RemoveLongTokens(Collapse(t))) == t
  {
    CollapseFixpoint(t);
    RemoveLongTokensKeeps(t);
    assert LStrip(t) == t;
    assert RStrip(t) == t;
  }
}
