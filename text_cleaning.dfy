/**
 * The whitespace normalisation applied to text extracted from the syllabus PDF:
 * `text.replace(/\s+/g, ' ').replace(/\n+/g, '\n').trim()`.
 */
module TextCleaning {

  /** JavaScript's `\s` class; `String.prototype.trim` strips the same characters. */
  predicate IsSpace(c: char) {
    || c == '\t' || c == '\n' || c == '\U{000B}' || c == '\U{000C}' || c == '\r' || c == ' '
    || c == '\U{00A0}' || c == '\U{1680}' || ('\U{2000}' <= c <= '\U{200A}')
    || c == '\U{2028}' || c == '\U{2029}' || c == '\U{202F}' || c == '\U{205F}'
    || c == '\U{3000}' || c == '\U{FEFF}'
  }

  /** `.replace(/\s+/g, ' ')` on s, where inRun says a run of whitespace is already open. */
  function CollapseFrom(s: string, inRun: bool): string {
    if s == [] then []
    else if IsSpace(s[0]) then
      if inRun then CollapseFrom(s[1..], true) else " " + CollapseFrom(s[1..], true)
    else [s[0]] + CollapseFrom(s[1..], false)
  }

  /** Every maximal run of whitespace becomes one space. */
  function CollapseSpaces(s: string): string {
    CollapseFrom(s, false)
  }

  /** `.replace(/\n+/g, '\n')` on s, where inRun says a run of newlines is already open. */
  function SqueezeFrom(s: string, inRun: bool): string {
    if s == [] then []
    else if s[0] == '\n' then
      if inRun then SqueezeFrom(s[1..], true) else "\n" + SqueezeFrom(s[1..], true)
    else [s[0]] + SqueezeFrom(s[1..], false)
  }

  /** Every maximal run of newlines becomes one newline. */
  function SqueezeNewlines(s: string): string {
    SqueezeFrom(s, false)
  }

  function TrimStart(s: string): string {
    if s != [] && IsSpace(s[0]) then TrimStart(s[1..]) else s
  }

  function TrimEnd(s: string): string {
    if s != [] && IsSpace(s[|s| - 1]) then TrimEnd(s[..|s| - 1]) else s
  }

  /** `.trim()` */
  function Trim(s: string): string {
    TrimEnd(TrimStart(s))
  }

  /** c itself unless it is whitespace. */
  function Kept(c: char): string {
    if IsSpace(c) then [] else [c]
  }

  /** The characters of s that are not whitespace, in order. */
  function NonSpace(s: string): string {
    if s == [] then [] else Kept(s[0]) + NonSpace(s[1..])
  }

  predicate OnlyPlainSpaces(r: string) {
    forall i :: 0 <= i < |r| && IsSpace(r[i]) ==> r[i] == ' '
  }

  predicate NoAdjacentSpaces(r: string) {
    forall i :: 0 < i < |r| && IsSpace(r[i]) ==> !IsSpace(r[i - 1])
  }

  predicate Trimmed(r: string) {
    r == [] || (!IsSpace(r[0]) && !IsSpace(r[|r| - 1]))
  }

  /**
   * The shape of cleaned text: its only whitespace is single spaces between
   * non-whitespace characters.
   */
  predicate IsClean(r: string) {
    OnlyPlainSpaces(r) && NoAdjacentSpaces(r) && Trimmed(r)
  }

  /**
   * The words of s: its maximal runs of non-whitespace characters, in order. A
   * character that follows a non-whitespace character extends that one's word.
   */
  function Words(s: string): (ws: seq<string>)
    ensures s != [] && !IsSpace(s[0]) ==> ws != []
    ensures forall k :: 0 <= k < |ws| ==> ws[k] != []
  {
    if s == [] then []
    else if IsSpace(s[0]) then Words(s[1..])
    else if |s| > 1 && !IsSpace(s[1]) then
      var rest := Words(s[1..]);
      [[s[0]] + rest[0]] + rest[1..]
    else [[s[0]]] + Words(s[1..])
  }

  /** The words separated by single spaces. */
  function JoinWords(ws: seq<string>): string {
    if ws == [] then []
    else if |ws| == 1 then ws[0]
    else ws[0] + " " + JoinWords(ws[1..])
  }

  /**
   * The cleaning chain. Its result has no newline, no two whitespace characters
   * side by side and no leading or trailing whitespace, and it keeps every
   * non-whitespace character of s, in order. Its words are those of s, and it is
   * exactly those words with one space between each two.
   */
  function Clean(s: string): (r: string)
    ensures IsClean(r)
    ensures '\n' !in r
    ensures NonSpace(r) == NonSpace(s)
    ensures Words(r) == Words(s)
    ensures r == JoinWords(Words(s))
  {
    var collapsed := CollapseSpaces(s);
    CollapseShape(s, false);
    CollapseKeepsWords(s, false);
    SqueezeKeeps(collapsed, false);
    var r := Trim(SqueezeNewlines(collapsed));
    TrimShape(collapsed);
    TrimKeepsWords(collapsed);
    CleanTextJoinsItsWords(r);
    assert IsSpace('\n');
    r
  }

  // ---------------------------------------------------------------------------
  // Lemmas behind Clean's contract

  lemma {:induction false} CollapseShape(s: string, inRun: bool)
    ensures var r := CollapseFrom(s, inRun);
      && OnlyPlainSpaces(r) && NoAdjacentSpaces(r)
      && (inRun && r != [] ==> !IsSpace(r[0]))
      && NonSpace(r) == NonSpace(s)
  {
    if s != [] {
      var rest := CollapseFrom(s[1..], IsSpace(s[0]));
      CollapseShape(s[1..], IsSpace(s[0]));
      var r := CollapseFrom(s, inRun);
      if IsSpace(s[0]) && inRun {
        assert r == rest;
      } else {
        var c := if IsSpace(s[0]) then ' ' else s[0];
        assert r == [c] + rest;
        assert NonSpace(r) == Kept(c) + NonSpace(rest) by {
          assert r[1..] == rest;
        }
        forall i | 0 < i < |r| && IsSpace(r[i]) ensures !IsSpace(r[i - 1]) {
          assert r[i] == rest[i - 1];
          if i > 1 { assert r[i - 1] == rest[i - 2]; }
        }
        forall i | 0 <= i < |r| && IsSpace(r[i]) ensures r[i] == ' ' {
          if i > 0 { assert r[i] == rest[i - 1]; }
        }
      }
    }
  }

  /** A word character in front of t starts t's first word, or a word of its own. */
  lemma WordsCons(c: char, t: string)
    requires !IsSpace(c)
    ensures Words([c] + t) == if t != [] && !IsSpace(t[0]) then [[c] + Words(t)[0]] + Words(t)[1..]
                              else [[c]] + Words(t)
  {
    assert ([c] + t)[1..] == t;
  }

  /** Whitespace in front of t separates nothing. */
  lemma WordsSpaceCons(c: char, t: string)
    requires IsSpace(c)
    ensures Words([c] + t) == Words(t)
  {
    assert ([c] + t)[1..] == t;
  }

  /** Collapsing whitespace runs keeps every word, and the words' order. */
  lemma {:induction false} CollapseKeepsWords(s: string, inRun: bool)
    ensures Words(CollapseFrom(s, inRun)) == Words(s)
  {
    if s != [] {
      var t := s[1..];
      assert s == [s[0]] + t;
      CollapseKeepsWords(t, IsSpace(s[0]));
      var rest := CollapseFrom(t, IsSpace(s[0]));
      if IsSpace(s[0]) {
        WordsSpaceCons(s[0], t);
        if !inRun {
          WordsSpaceCons(' ', rest);
        }
      } else {
        assert CollapseFrom(s, inRun) == [s[0]] + rest;
        // the collapsed tail starts with a word character exactly when t does
        assert rest != [] && !IsSpace(rest[0]) <==> t != [] && !IsSpace(t[0]);
        WordsCons(s[0], rest);
        WordsCons(s[0], t);
      }
    }
  }

  /** A whitespace character at the end ends no word. */
  lemma {:induction false} WordsDropTrailingSpace(s: string, c: char)
    requires IsSpace(c)
    ensures Words(s + [c]) == Words(s)
  {
    if s == [] {
      assert Words([c]) == Words([c][1..]);
    } else {
      var t := s[1..];
      assert s + [c] == [s[0]] + (t + [c]);
      WordsDropTrailingSpace(t, c);
      if IsSpace(s[0]) {
        WordsSpaceCons(s[0], t + [c]);
      } else {
        assert t + [c] != [] && !IsSpace((t + [c])[0]) <==> t != [] && !IsSpace(t[0]);
        WordsCons(s[0], t + [c]);
        WordsCons(s[0], t);
      }
    }
  }

  lemma {:induction false} TrimStartKeepsWords(s: string)
    ensures Words(TrimStart(s)) == Words(s)
  {
    if s != [] && IsSpace(s[0]) {
      TrimStartKeepsWords(s[1..]);
    }
  }

  lemma {:induction false} TrimEndKeepsWords(s: string)
    ensures Words(TrimEnd(s)) == Words(s)
  {
    if s != [] && IsSpace(s[|s| - 1]) {
      TrimEndKeepsWords(s[..|s| - 1]);
      assert s == s[..|s| - 1] + [s[|s| - 1]];
      WordsDropTrailingSpace(s[..|s| - 1], s[|s| - 1]);
    }
  }

  lemma TrimKeepsWords(s: string)
    ensures Words(Trim(s)) == Words(s)
  {
    TrimStartKeepsWords(s);
    TrimEndKeepsWords(TrimStart(s));
  }

  /** Prefixing a character to the first word prefixes it to the joined text. */
  lemma JoinWordsCons(c: char, ws: seq<string>)
    requires ws != []
    ensures JoinWords([[c] + ws[0]] + ws[1..]) == [c] + JoinWords(ws)
  {
    var vs := [[c] + ws[0]] + ws[1..];
    assert vs[1..] == ws[1..];
  }

  /** Clean text from any of its word characters on is clean. */
  lemma CleanSuffix(r: string, k: nat)
    requires IsClean(r) && k < |r| && !IsSpace(r[k])
    ensures IsClean(r[k..])
  {
    assert forall i :: 0 <= i < |r| - k ==> r[k..][i] == r[k + i];
  }

  /** In clean text, whitespace after the first character is one space before a word. */
  lemma CleanSpaceIsSingle(r: string)
    requires IsClean(r) && |r| > 1 && IsSpace(r[1])
    ensures r[1] == ' ' && |r| > 2 && !IsSpace(r[2])
  {
  }

  /** Clean text is its own words, joined by single spaces. */
  lemma {:induction false} CleanTextJoinsItsWords(r: string)
    requires IsClean(r)
    decreases |r|
    ensures JoinWords(Words(r)) == r
  {
    if r == [] {
    } else if |r| == 1 {
      WordsCons(r[0], []);
      assert r == [r[0]] + [];
    } else if !IsSpace(r[1]) {
      var t := r[1..];
      assert r == [r[0]] + t;
      CleanSuffix(r, 1);
      CleanTextJoinsItsWords(t);
      WordsCons(r[0], t);
      JoinWordsCons(r[0], Words(t));
    } else {
      CleanSpaceIsSingle(r);
      var t, u := r[1..], r[2..];
      assert r == [r[0]] + t && t == [r[1]] + u;
      CleanSuffix(r, 2);
      CleanTextJoinsItsWords(u);
      WordsSpaceCons(r[1], u);
      WordsCons(r[0], t);
      JoinOfSeparateWord(r[0], Words(u));
    }
  }

  /** A one-character word in front of further words is joined to them by a space. */
  lemma JoinOfSeparateWord(c: char, ws: seq<string>)
    requires ws != []
    ensures JoinWords([[c]] + ws) == [c] + " " + JoinWords(ws)
  {
    assert ([[c]] + ws)[1..] == ws;
  }

  /** Without newlines there is nothing for the newline squeeze to do. */
  lemma {:induction false} SqueezeKeeps(s: string, inRun: bool)
    requires OnlyPlainSpaces(s)
    ensures SqueezeFrom(s, inRun) == s
  {
    if s != [] {
      assert s[0] != '\n' by {
        assert IsSpace('\n');
      }
      SqueezeKeeps(s[1..], false);
      assert s == [s[0]] + s[1..];
    }
  }

  lemma {:induction false} NonSpaceLast(s: string)
    requires s != []
    ensures NonSpace(s) == NonSpace(s[..|s| - 1]) + Kept(s[|s| - 1])
  {
    if |s| > 1 {
      var t, init := s[1..], s[..|s| - 1];
      assert t[..|t| - 1] == init[1..];
      assert t[|t| - 1] == s[|s| - 1] && init[0] == s[0];
      NonSpaceLast(t);
      assert NonSpace(init) == Kept(s[0]) + NonSpace(init[1..]);
    }
  }

  lemma {:induction false} TrimStartShape(s: string)
    ensures |TrimStart(s)| <= |s| && TrimStart(s) == s[|s| - |TrimStart(s)|..]
    ensures TrimStart(s) != [] ==> !IsSpace(TrimStart(s)[0])
    ensures NonSpace(TrimStart(s)) == NonSpace(s)
  {
    if s != [] && IsSpace(s[0]) {
      TrimStartShape(s[1..]);
    }
  }

  lemma {:induction false} TrimEndShape(s: string)
    ensures |TrimEnd(s)| <= |s| && TrimEnd(s) == s[..|TrimEnd(s)|]
    ensures TrimEnd(s) != [] ==> !IsSpace(TrimEnd(s)[|TrimEnd(s)| - 1])
    ensures NonSpace(TrimEnd(s)) == NonSpace(s)
  {
    if s != [] && IsSpace(s[|s| - 1]) {
      TrimEndShape(s[..|s| - 1]);
      NonSpaceLast(s);
    }
  }

  /** A slice keeps plain, single spaces. */
  lemma SliceKeepsSpacing(s: string, lo: nat, hi: nat)
    requires lo <= hi <= |s|
    requires OnlyPlainSpaces(s) && NoAdjacentSpaces(s)
    ensures OnlyPlainSpaces(s[lo..hi]) && NoAdjacentSpaces(s[lo..hi])
  {
    assert forall i :: 0 <= i < hi - lo ==> s[lo..hi][i] == s[lo + i];
  }

  lemma TrimShape(s: string)
    requires OnlyPlainSpaces(s) && NoAdjacentSpaces(s)
    ensures IsClean(Trim(s))
    ensures NonSpace(Trim(s)) == NonSpace(s)
  {
    var a := TrimStart(s);
    TrimStartShape(s);
    var r := TrimEnd(a);
    TrimEndShape(a);
    var lo := |s| - |a|;
    assert r == s[lo..lo + |r|];
    SliceKeepsSpacing(s, lo, lo + |r|);
  }

  // ---------------------------------------------------------------------------
  // Idempotence

  lemma {:induction false} CollapseKeepsClean(r: string, inRun: bool)
    requires OnlyPlainSpaces(r) && NoAdjacentSpaces(r)
    requires inRun && r != [] ==> !IsSpace(r[0])
    ensures CollapseFrom(r, inRun) == r
  {
    if r != [] {
      assert OnlyPlainSpaces(r[1..]) && NoAdjacentSpaces(r[1..]) by {
        forall i | 0 <= i < |r[1..]| ensures r[1..][i] == r[i + 1] { }
      }
      if |r| > 1 && IsSpace(r[0]) {
        assert !IsSpace(r[1]);
      }
      CollapseKeepsClean(r[1..], IsSpace(r[0]));
      assert r == [r[0]] + r[1..];
    }
  }

  lemma TrimKeepsTrimmed(r: string)
    requires Trimmed(r)
    ensures Trim(r) == r
  {
  }

  /** Cleaning text that is already clean changes nothing. */
  lemma CleanIsIdempotent(s: string)
    ensures Clean(Clean(s)) == Clean(s)
  {
    var r := Clean(s);
    CollapseKeepsClean(r, false);
    SqueezeKeeps(r, false);
    TrimKeepsTrimmed(r);
  }

  /** Exactly the clean strings are left unchanged by cleaning. */
  lemma CleanFixesExactlyCleanText(r: string)
    ensures Clean(r) == r <==> IsClean(r)
  {
    if IsClean(r) {
      CollapseKeepsClean(r, false);
      SqueezeKeeps(r, false);
      TrimKeepsTrimmed(r);
    }
  }

  /** Two words split by a run of whitespace, line break included, come out one space apart. */
  lemma CleanSeparatesWords()
    ensures Clean("a \n b") == "a b"
  {
    var s := "a \n b";
    assert s == ['a'] + (" " + ("\n" + (" " + "b")));
    WordsSpaceCons(' ', "b");
    WordsSpaceCons('\n', " b");
    WordsSpaceCons(' ', "\n b");
    WordsCons('a', " \n b");
    assert Words("b") == ["b"];
    assert JoinWords([['a'], ['b']]) == "a b";
  }
}
