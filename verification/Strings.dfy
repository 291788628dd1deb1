/** The string operations of Rust's standard library that the compressor uses, on sequences of `char`. */
module Strings {

  predicate StartsWith(s: string, prefix: string) {
    prefix <= s
  }

  predicate EndsWith(s: string, suffix: string) {
    |suffix| <= |s| && s[|s| - |suffix|..] == suffix
  }

  predicate Contains(s: string, part: string) {
    StartsWith(s, part) || (s != [] && Contains(s[1..], part))
  }

  lemma {:induction false} ContainsNeedsLength(s: string, part: string)
    requires Contains(s, part)
    ensures |part| <= |s|
  {
    if !StartsWith(s, part) {
      ContainsNeedsLength(s[1..], part);
    }
  }

  function ToAsciiLowercase(s: string): (r: string)
    ensures |r| == |s|
  {
    seq(|s|, i requires 0 <= i < |s| =>
      if 'A' <= s[i] <= 'Z' then (s[i] as int - 'A' as int + 'a' as int) as char else s[i])
  }

  predicate IsAsciiAlphabetic(c: char) {
    'A' <= c <= 'Z' || 'a' <= c <= 'z'
  }

  predicate IsHexDigit(c: char) {
    '0' <= c <= '9' || 'a' <= c <= 'f' || 'A' <= c <= 'F'
  }

  /** Unicode `White_Space`. */
  predicate IsWhitespace(c: char) {
    || '\U{0009}' <= c <= '\U{000D}' || c == '\U{0020}' || c == '\U{0085}' || c == '\U{00A0}' || c == '\U{1680}'
    || '\U{2000}' <= c <= '\U{200A}' || c == '\U{2028}' || c == '\U{2029}' || c == '\U{202F}' || c == '\U{205F}'
    || c == '\U{3000}'
  }

  function TrimStart(s: string): (r: string)
    ensures |r| <= |s|
  {
    if s != [] && IsWhitespace(s[0]) then TrimStart(s[1..]) else s
  }

  /** The leading characters that are not white space. */
  function FirstWord(s: string): (r: string)
    ensures |r| <= |s|
  {
    if s == [] || IsWhitespace(s[0]) then [] else [s[0]] + FirstWord(s[1..])
  }

  /** `split_whitespace().nth(1)`, empty when there is none. */
  function SecondWord(s: string): string {
    var t := TrimStart(s);
    FirstWord(TrimStart(t[|FirstWord(t)|..]))
  }

  // --- Lines ---------------------------------------------------------------------------------

  function IndexOf(s: string, c: char): (i: nat)
    ensures i <= |s|
    ensures i < |s| ==> s[i] == c
    ensures forall j | 0 <= j < i :: s[j] != c
  {
    if s == [] || s[0] == c then 0 else 1 + IndexOf(s[1..], c)
  }

  function WithoutCarriageReturn(line: string): string {
    if line != [] && line[|line| - 1] == '\r' then line[..|line| - 1] else line
  }

  /** `lines()`: a carriage return belongs to the line ending only when a newline follows it. */
  function Lines(text: string): seq<string>
    decreases |text|
  {
    if text == [] then []
    else
      var i := IndexOf(text, '\n');
      if i == |text| then [text] else [WithoutCarriageReturn(text[..i])] + Lines(text[i + 1..])
  }

  /** `join("\n")` */
  function Join(lines: seq<string>): string {
    if lines == [] then [] else if |lines| == 1 then lines[0] else lines[0] + "\n" + Join(lines[1..])
  }

  lemma JoinIsEmptyIff(lines: seq<string>)
    ensures Join(lines) == "" <==> lines == [] || lines == [""]
  {
  }

  /** The texts without a visible line. */
  predicate IsBlank(text: string) {
    text == "" || text == "\n" || text == "\r\n"
  }

  lemma NoLinesIff(text: string)
    ensures Lines(text) == [] <==> text == ""
  {
  }

  lemma StrippedIsEmptyIff(line: string)
    ensures WithoutCarriageReturn(line) == "" <==> line == "" || line == "\r"
  {
  }

  lemma LineEndingIs(text: string, i: nat)
    requires i < |text| && text[i] == '\n'
    requires forall j | 0 <= j < i :: text[j] != '\n'
    ensures text == "\n" <==> text[..i] == "" && text[i + 1..] == ""
    ensures text == "\r\n" <==> text[..i] == "\r" && text[i + 1..] == ""
  {
  }

  lemma SingletonIff(first: string, rest: seq<string>)
    ensures [first] + rest == [""] <==> first == "" && rest == []
  {
    assert ([first] + rest)[0] == first && |[first] + rest| == 1 + |rest|;
    if first == "" && rest == [] {
      assert [first] + rest == [""];
    }
  }

  lemma NoNewline(text: string)
    requires forall j | 0 <= j < |text| :: text[j] != '\n'
    ensures text != "\n" && text != "\r\n" && Lines(text) != [""]
  {
    if text != [] {
      assert IndexOf(text, '\n') == |text|;
      assert [text][0] == text;
    }
    assert "\n"[0] == '\n' && "\r\n"[1] == '\n';
  }

  lemma OneBlankLineIff(text: string)
    ensures Lines(text) == [""] <==> text == "\n" || text == "\r\n"
  {
    var i := IndexOf(text, '\n');
    if i < |text| {
      LineEndingIs(text, i);
      StrippedIsEmptyIff(text[..i]);
      NoLinesIff(text[i + 1..]);
      var first, rest := WithoutCarriageReturn(text[..i]), Lines(text[i + 1..]);
      assert Lines(text) == [first] + rest;
      SingletonIff(first, rest);
    } else {
      NoNewline(text);
    }
  }

  predicate OneLine(s: string) {
    forall i | 0 <= i < |s| :: s[i] != '\n'
  }

  lemma {:induction false} LinesAreOneLine(text: string)
    ensures forall line | line in Lines(text) :: OneLine(line)
    decreases |text|
  {
    if text != [] {
      var i := IndexOf(text, '\n');
      if i < |text| {
        LinesAreOneLine(text[i + 1..]);
      }
    }
  }

  lemma FirstNewline(line: string, rest: string)
    requires OneLine(line)
    ensures IndexOf(line + "\n" + rest, '\n') == |line|
  {
    var text := line + "\n" + rest;
    var i := IndexOf(text, '\n');
    assert text[|line|] == '\n';
    assert forall j | 0 <= j < |line| :: text[j] == line[j];
  }

  /** Joining lines gives no more lines than there were. */
  lemma {:induction false} JoinedLines(lines: seq<string>)
    requires forall line | line in lines :: OneLine(line)
    ensures |Lines(Join(lines))| <= |lines|
    decreases lines
  {
    if |lines| == 1 {
      assert lines[0] in lines;
      assert IndexOf(lines[0], '\n') == |lines[0]|;
    } else if |lines| > 1 {
      var text, rest := Join(lines), Join(lines[1..]);
      assert lines[0] in lines;
      FirstNewline(lines[0], rest);
      assert text[|lines[0]| + 1..] == rest;
      JoinedLines(lines[1..]);
    }
  }

  // --- What these operations mean -----------------------------------------------------------------

  predicate IsAt(s: string, part: string, i: nat) {
    i + |part| <= |s| && s[i..i + |part|] == part
  }

  lemma {:induction false} ContainsIff(s: string, part: string)
    ensures Contains(s, part) <==> exists i: nat :: IsAt(s, part, i)
  {
    if StartsWith(s, part) {
      assert IsAt(s, part, 0);
    }
    if s != [] {
      ContainsIff(s[1..], part);
      if i: nat :| IsAt(s[1..], part, i) {
        assert s[i + 1..i + 1 + |part|] == s[1..][i..i + |part|];
        assert IsAt(s, part, i + 1);
      }
      if i: nat :| IsAt(s, part, i) && i > 0 {
        assert s[1..][i - 1..i - 1 + |part|] == s[i..i + |part|];
        assert IsAt(s[1..], part, i - 1);
      }
    }
    if IsAt(s, part, 0) {
      assert s[0..|part|] == s[..|part|];
    }
  }

  /** `text` shows up after nothing but white space, up to the end of the line. */
  ghost predicate Indented(line: string, text: string) {
    |text| <= |line| && line[|line| - |text|..] == text && forall i | 0 <= i < |line| - |text| :: IsWhitespace(line[i])
  }

  lemma IndentedMore(line: string, text: string)
    requires line != [] && IsWhitespace(line[0]) && Indented(line[1..], text)
    ensures Indented(line, text)
  {
    hide IsWhitespace;
    assert forall i | 1 <= i < |line| :: line[i] == line[1..][i - 1];
    assert line[|line| - |text|..] == line[1..][|line[1..]| - |text|..];
  }

  lemma {:induction false} TrimStartIs(line: string)
    ensures Indented(line, TrimStart(line))
    ensures TrimStart(line) != [] ==> !IsWhitespace(TrimStart(line)[0])
  {
    hide IsWhitespace;
    if line != [] && IsWhitespace(line[0]) {
      TrimStartIs(line[1..]);
      IndentedMore(line, TrimStart(line));
    }
  }

  lemma TrimmedIs(line: string, text: string)
    requires Indented(line, text) && text != [] && !IsWhitespace(text[0])
    ensures TrimStart(line) == text
  {
    TrimStartIs(line);
    var t := TrimStart(line);
    assert text[0] == line[|line| - |text|];
    assert t != [] ==> t[0] == line[|line| - |t|];
  }

  lemma {:induction false} FirstWordIs(s: string)
    ensures FirstWord(s) <= s && forall c | c in FirstWord(s) :: !IsWhitespace(c)
    ensures |FirstWord(s)| < |s| ==> IsWhitespace(s[|FirstWord(s)|])
  {
    if s != [] && !IsWhitespace(s[0]) {
      FirstWordIs(s[1..]);
    }
  }

  /** `word` stands at the start of `s`, before white space or at its end. */
  predicate IsFirstWord(s: string, word: string) {
    word <= s && (forall c | c in word :: !IsWhitespace(c)) && (|word| < |s| ==> IsWhitespace(s[|word|]))
  }

  lemma FirstWordIff(s: string, word: string)
    ensures IsFirstWord(s, word) <==> FirstWord(s) == word
  {
    FirstWordIs(s);
    var first := FirstWord(s);
    assert forall k | 0 <= k < |first| :: first[k] in first && s[k] == first[k];
    assert forall k | 0 <= k < |word| :: word[k] in word;
  }

  /** No upper-case letter is left, and nothing else changes. */
  lemma LowercaseIs(s: string, i: nat)
    requires i < |s|
    ensures var c := ToAsciiLowercase(s)[i];
            if 'A' <= s[i] <= 'Z' then 'a' <= c <= 'z' && c as int - s[i] as int == 32 else c == s[i]
  {
  }

  /** Joined with line endings, lines are read back, unless the last one is empty, holds a line ending, or is left with
    a carriage return at its end. */
  lemma {:induction false} LinesOfJoin(lines: seq<string>)
    requires forall line | line in lines :: OneLine(line) && (line == "" || line[|line| - 1] != '\r')
    requires lines != [] ==> lines[|lines| - 1] != ""
    ensures Lines(Join(lines)) == lines
    decreases lines
  {
    if |lines| == 1 {
      assert lines[0] in lines;
      assert IndexOf(lines[0], '\n') == |lines[0]|;
    } else if |lines| > 1 {
      var text, rest := Join(lines), Join(lines[1..]);
      assert lines[0] in lines;
      FirstNewline(lines[0], rest);
      assert text[..|lines[0]|] == lines[0] && text[|lines[0]| + 1..] == rest;
      LinesOfJoin(lines[1..]);
    }
  }
}
