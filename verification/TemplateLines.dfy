/** The lines of an nginx template and the marker comments deploy/render-nginx-config.py
    recognises in them. */
module TemplateLines {

  /** What `\s` matches in a Python `str` pattern. */
  predicate IsSpace(c: char) {
    var n := c as int;
    || 9 <= n <= 13 || 28 <= n <= 32 || n == 0x85 || n == 0xA0 || n == 0x1680 || 0x2000 <= n <= 0x200A
    || n == 0x2028 || n == 0x2029 || n == 0x202F || n == 0x205F || n == 0x3000
  }

  /** Where `str.splitlines` ends a line. */
  predicate IsBreak(c: char) {
    var n := c as int;
    10 <= n <= 13 || 28 <= n <= 30 || n == 0x85 || n == 0x2028 || n == 0x2029
  }

  predicate Unbroken(line: string) {
    forall i :: 0 <= i < |line| ==> !IsBreak(line[i])
  }

  predicate Blank(s: string) {
    forall i :: 0 <= i < |s| ==> IsSpace(s[i])
  }

  /** Length of the leading run of whitespace. */
  function Lead(line: string): (n: nat)
    ensures n <= |line| && Blank(line[..n]) && (n < |line| ==> !IsSpace(line[n]))
  {
    if line == "" || !IsSpace(line[0]) then 0
    else
      assert forall i :: 0 < i <= Lead(line[1..]) ==> line[i] == line[1..][i - 1];
      1 + Lead(line[1..])
  }

  function WordLength(s: string): (n: nat)
    ensures n <= |s|
  {
    if s == "" || IsSpace(s[0]) then 0 else 1 + WordLength(s[1..])
  }

  /** The maximal runs of non-space characters. */
  function Words(s: string): seq<string>
    decreases |s|
  {
    if s == "" then []
    else if IsSpace(s[0]) then Words(s[1..])
    else [s[..WordLength(s)]] + Words(s[WordLength(s)..])
  }

  datatype Kind = Text | If(flag: string) | Else | Endif | Include(rel: string)

  predicate IsConditional(kind: Kind) {
    kind.If? || kind.Else? || kind.Endif?
  }

  /** The marker a line is: a `#` after any indentation, and then exactly the words of one
      of the four patterns. */
  function Classify(line: string): Kind {
    var i := Lead(line);
    if i == |line| || line[i] != '#' then Text else KindOf(Words(line[i + 1..]))
  }

  function KindOf(words: seq<string>): Kind {
    if |words| == 2 && words[0] == "RETINA_IF" then If(words[1])
    else if words == ["RETINA_ELSE"] then Else
    else if words == ["RETINA_ENDIF"] then Endif
    else if |words| == 2 && words[0] == "RETINA_INCLUDE" then Include(words[1])
    else Text
  }

  lemma {:induction false} LeadOfIndented(indent: string, line: string)
    requires Blank(indent)
    ensures Lead(indent + line) == |indent| + Lead(line)
  {
    if indent == "" {
      assert indent + line == line;
    } else {
      assert (indent + line)[1..] == indent[1..] + line;
      LeadOfIndented(indent[1..], line);
    }
  }

  // ── what the four patterns match ──────────────────────────────────────────

  predicate Word(s: string) {
    s != "" && forall i :: 0 <= i < |s| ==> !IsSpace(s[i])
  }

  /** Matched by `^\s*#\s*keyword\s*$`, the blanks being these. */
  predicate Bare(line: string, keyword: string, a: string, b: string, d: string) {
    Blank(a) && Blank(b) && Blank(d) && line == a + "#" + (b + keyword + d)
  }

  /** Matched by `^\s*#\s*keyword\s+(\S+)\s*$`, likewise. */
  predicate WithWord(line: string, keyword: string, word: string, a: string, b: string, c: string, d: string) {
    && Blank(a) && Blank(b) && Blank(c) && c != "" && Blank(d) && Word(word)
    && line == a + "#" + (b + keyword + (c + word + d))
  }

  predicate Parted(t: string) {
    t == "" || IsSpace(t[0])
  }

  lemma {:induction false} WordsOfBlank(s: string)
    ensures Words(s) == [] <==> Blank(s)
  {
    if s != "" && IsSpace(s[0]) {
      WordsOfBlank(s[1..]);
      assert Blank(s[1..]) ==> forall i :: 0 < i < |s| ==> s[i] == s[1..][i - 1];
      assert Blank(s) ==> Blank(s[1..]);
    }
  }

  lemma {:induction false} WordLengthAt(word: string, t: string)
    requires forall i :: 0 <= i < |word| ==> !IsSpace(word[i])
    requires Parted(t)
    ensures WordLength(word + t) == |word|
  {
    if word == "" {
      assert word + t == t;
    } else {
      assert (word + t)[1..] == word[1..] + t;
      WordLengthAt(word[1..], t);
    }
  }

  lemma {:induction false} WordsAfterBlank(b: string, t: string)
    requires Blank(b)
    ensures Words(b + t) == Words(t)
  {
    if b == "" {
      assert b + t == t;
    } else {
      assert (b + t)[1..] == b[1..] + t;
      WordsAfterBlank(b[1..], t);
    }
  }

  lemma WordFirst(b: string, word: string, t: string)
    requires Blank(b) && Word(word) && Parted(t)
    ensures Words(b + word + t) == [word] + Words(t)
  {
    assert b + word + t == b + (word + t);
    WordsAfterBlank(b, word + t);
    WordLengthAt(word, t);
    assert (word + t)[..|word|] == word && (word + t)[|word|..] == t;
  }

  lemma {:induction false} WordLengthIsMaximal(s: string)
    ensures forall i :: 0 <= i < WordLength(s) ==> !IsSpace(s[i])
    ensures Parted(s[WordLength(s)..])
  {
    if s != "" && !IsSpace(s[0]) {
      WordLengthIsMaximal(s[1..]);
      assert forall i :: 0 < i < |s| ==> s[i] == s[1..][i - 1];
      assert s[WordLength(s)..] == s[1..][WordLength(s[1..])..];
    }
  }

  /** The first word, and what is around it. */
  lemma {:induction false} FirstWord(s: string) returns (b: string, t: string)
    requires Words(s) != []
    ensures Blank(b) && Word(Words(s)[0]) && Parted(t)
    ensures s == b + Words(s)[0] + t && Words(t) == Words(s)[1..]
  {
    if IsSpace(s[0]) {
      var inner;
      inner, t := FirstWord(s[1..]);
      b := [s[0]] + inner;
      assert s == [s[0]] + (inner + Words(s)[0] + t) == b + Words(s)[0] + t;
    } else {
      WordLengthIsMaximal(s);
      b, t := "", s[WordLength(s)..];
      assert "" + s[..WordLength(s)] + t == s;
    }
  }

  lemma LeadAt(a: string, t: string)
    requires Blank(a)
    ensures Lead(a + "#" + t) == |a| && (a + "#" + t)[|a|] == '#' && (a + "#" + t)[|a| + 1..] == t
  {
    var line, marked := a + "#" + t, "#" + t;
    assert line == a + marked && marked[0] == '#' && marked[1..] == t;
    LeadOfIndented(a, marked);
    assert line[|a|] == marked[0] && line[|a| + 1..] == marked[1..];
  }

  lemma BareWords(line: string, keyword: string, a: string, b: string, d: string)
    requires Bare(line, keyword, a, b, d) && Word(keyword)
    ensures Lead(line) == |a| < |line| && line[|a|] == '#' && Words(line[|a| + 1..]) == [keyword]
  {
    LeadAt(a, b + keyword + d);
    WordFirst(b, keyword, d);
    WordsOfBlank(d);
  }

  lemma WithWordWords(line: string, keyword: string, word: string, a: string, b: string, c: string, d: string)
    requires WithWord(line, keyword, word, a, b, c, d) && Word(keyword)
    ensures Lead(line) == |a| < |line| && line[|a|] == '#' && Words(line[|a| + 1..]) == [keyword, word]
  {
    LeadAt(a, b + keyword + (c + word + d));
    WordFirst(b, keyword, c + word + d);
    WordFirst(c, word, d);
    WordsOfBlank(d);
  }

  /** A `#` after any indentation, and then exactly these words. */
  predicate Comments(line: string, words: seq<string>) {
    Lead(line) < |line| && line[Lead(line)] == '#' && Words(line[Lead(line) + 1..]) == words
  }

  ghost predicate MatchesBare(line: string, keyword: string) {
    exists a, b, d :: Bare(line, keyword, a, b, d)
  }

  ghost predicate MatchesWithWord(line: string, keyword: string, word: string) {
    exists a, b, c, d :: WithWord(line, keyword, word, a, b, c, d)
  }

  lemma CommentText(line: string, words: seq<string>) returns (a: string, t: string)
    requires Comments(line, words)
    ensures Blank(a) && line == a + "#" + t && Words(t) == words
  {
    a, t := line[..Lead(line)], line[Lead(line) + 1..];
  }

  lemma BareIsComment(line: string, keyword: string)
    requires Word(keyword)
    ensures MatchesBare(line, keyword) <==> Comments(line, [keyword])
  {
    if Comments(line, [keyword]) {
      var a, t := CommentText(line, [keyword]);
      var b, d := FirstWord(t);
      WordsOfBlank(d);
      assert Bare(line, keyword, a, b, d);
    }
    forall a, b, d | Bare(line, keyword, a, b, d) ensures Comments(line, [keyword]) {
      BareWords(line, keyword, a, b, d);
    }
  }

  lemma TwoWords(t: string, keyword: string, word: string) returns (b: string, c: string, d: string)
    requires Words(t) == [keyword, word]
    ensures Blank(b) && Blank(c) && c != "" && Blank(d) && Word(word) && t == b + keyword + (c + word + d)
  {
    var u;
    b, u := FirstWord(t);
    c, d := FirstWord(u);
    WordsOfBlank(d);
    assert IsSpace(u[0]) && u[0] == (c + word)[0];
  }

  lemma WithWordIsComment(line: string, keyword: string, word: string)
    requires Word(keyword)
    ensures MatchesWithWord(line, keyword, word) <==> Comments(line, [keyword, word])
  {
    if Comments(line, [keyword, word]) {
      var a, t := CommentText(line, [keyword, word]);
      var b, c, d := TwoWords(t, keyword, word);
      assert WithWord(line, keyword, word, a, b, c, d);
    }
    forall a, b, c, d | WithWord(line, keyword, word, a, b, c, d) ensures Comments(line, [keyword, word]) {
      WithWordWords(line, keyword, word, a, b, c, d);
    }
  }

  lemma KindsOfComments(line: string, word: string)
    ensures Classify(line) == Else <==> Comments(line, ["RETINA_ELSE"])
    ensures Classify(line) == Endif <==> Comments(line, ["RETINA_ENDIF"])
    ensures Classify(line) == If(word) <==> Comments(line, ["RETINA_IF", word])
    ensures Classify(line) == Include(word) <==> Comments(line, ["RETINA_INCLUDE", word])
  {
    assert |"RETINA_IF"| != |"RETINA_INCLUDE"| && |"RETINA_ELSE"| != |"RETINA_ENDIF"|;
  }

  /** A line is an else or an end marker exactly when it matches
      `^\s*#\s*RETINA_ELSE\s*$` or `^\s*#\s*RETINA_ENDIF\s*$`; it opens a conditional on a flag,
      or includes a file, exactly when it matches `^\s*#\s*RETINA_IF\s+(\S+)\s*$` or
      `^\s*#\s*RETINA_INCLUDE\s+(\S+)\s*$` with that word. */
  lemma MarkersAreExact(line: string, word: string)
    ensures Classify(line) == Else <==> MatchesBare(line, "RETINA_ELSE")
    ensures Classify(line) == Endif <==> MatchesBare(line, "RETINA_ENDIF")
    ensures Classify(line) == If(word) <==> MatchesWithWord(line, "RETINA_IF", word)
    ensures Classify(line) == Include(word) <==> MatchesWithWord(line, "RETINA_INCLUDE", word)
  {
    KindsOfComments(line, word);
    BareIsComment(line, "RETINA_ELSE");
    BareIsComment(line, "RETINA_ENDIF");
    WithWordIsComment(line, "RETINA_IF", word);
    WithWordIsComment(line, "RETINA_INCLUDE", word);
  }

  /** A line with what it is. */
  datatype Token = Token(text: string, kind: Kind)

  function Tokens(lines: seq<string>): seq<Token> {
    seq(|lines|, i requires 0 <= i < |lines| => Token(lines[i], Classify(lines[i])))
  }

  /** Indenting a line with any whitespace does not change what marker it is. */
  lemma IndentKeepsKind(indent: string, line: string)
    requires Blank(indent)
    ensures Classify(indent + line) == Classify(line)
  {
    LeadOfIndented(indent, line);
    var i := Lead(line);
    if i < |line| {
      assert (indent + line)[|indent| + i + 1..] == line[i + 1..];
      assert (indent + line)[|indent| + i] == line[i];
    }
  }

  // ── text and lines ────────────────────────────────────────────────────────

  function LineLength(text: string): (n: nat)
    ensures n <= |text| && Unbroken(text[..n]) && (n < |text| ==> IsBreak(text[n]))
  {
    if text == "" || IsBreak(text[0]) then 0
    else
      assert forall i :: 0 < i <= LineLength(text[1..]) ==> text[i] == text[1..][i - 1];
      1 + LineLength(text[1..])
  }

  /** `str.splitlines`: a break ends a line, "\r\n" is one break, and the text after the
      last break is a line only if there is any. */
  function SplitLines(text: string): (lines: seq<string>)
    ensures forall k :: 0 <= k < |lines| ==> Unbroken(lines[k])
    decreases |text|
  {
    if text == "" then []
    else
      var n := LineLength(text);
      if n == |text| then [text]
      else
        var width := if text[n] == '\r' && n + 1 < |text| && text[n + 1] == '\n' then 2 else 1;
        [text[..n]] + SplitLines(text[n + width..])
  }

  /** Every line ended by "\n"; nothing for no lines. */
  function Joined(lines: seq<string>): string {
    if lines == [] then "" else lines[0] + "\n" + Joined(lines[1..])
  }

  lemma {:induction false} LineLengthAt(line: string, rest: string)
    requires Unbroken(line)
    ensures LineLength(line + "\n" + rest) == |line|
  {
    var text := line + "\n" + rest;
    if line != "" {
      assert text[1..] == line[1..] + "\n" + rest;
      LineLengthAt(line[1..], rest);
    }
  }

  /** What ends a line before `rest`: one break, and "\r\n" as one. */
  predicate Ends(end: string, rest: string) {
    if end == "\r\n" then true
    else |end| == 1 && IsBreak(end[0]) && !(end == "\r" && rest != "" && rest[0] == '\n')
  }

  lemma {:induction false} LineLengthBefore(line: string, t: string)
    requires Unbroken(line) && (t == "" || IsBreak(t[0]))
    ensures LineLength(line + t) == |line|
  {
    if line == "" {
      assert line + t == t;
    } else {
      assert (line + t)[1..] == line[1..] + t;
      LineLengthBefore(line[1..], t);
    }
  }

  /** Every break ends a line, whichever it is; text without a break is one line. */
  lemma SplitsAtEveryBreak(line: string, end: string, rest: string)
    requires Unbroken(line) && Ends(end, rest)
    ensures SplitLines(line + end + rest) == [line] + SplitLines(rest)
    ensures SplitLines(line) == if line == "" then [] else [line]
  {
    var text := line + end + rest;
    assert text == line + (end + rest);
    LineLengthBefore(line, end + rest);
    LineLengthBefore(line, "");
    assert line + "" == line;
    assert text[..|line|] == line && text[|line|] == end[0] && text[|line| + |end|..] == rest;
    assert end == "\r\n" ==> text[|line| + 1] == end[1];
    assert |end| == 1 && rest != "" ==> text[|line| + 1] == rest[0];
    assert |end| == 1 ==> end == [end[0]];
  }

  lemma SplitsFirst(line: string, rest: string)
    requires Unbroken(line)
    ensures SplitLines(line + "\n" + rest) == [line] + SplitLines(rest)
  {
    var text := line + "\n" + rest;
    LineLengthAt(line, rest);
    assert text[..|line|] == line && text[|line|] == '\n' && text[|line| + 1..] == rest;
  }

  lemma {:induction false} SplitOfJoined(lines: seq<string>)
    requires forall k :: 0 <= k < |lines| ==> Unbroken(lines[k])
    ensures SplitLines(Joined(lines)) == lines
  {
    if lines != [] {
      SplitsFirst(lines[0], Joined(lines[1..]));
      SplitOfJoined(lines[1..]);
    }
  }
}
