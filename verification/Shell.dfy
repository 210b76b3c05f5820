/** Word splitting by the quoting rules of the Shell Command Language (IEEE Std
    1003.1-2017, section 2.2: 2.2.1 Escape Character, 2.2.2 Single-Quotes, 2.2.3
    Double-Quotes), and the quoting function that relies on them. */
module Shell {
  import opened Prelude

  datatype Mode = Bare | Single | Double

  /** Characters that an unquoted word may hold literally. Anything else unquoted would
      be an operator, an expansion, a pattern or an assignment. */
  predicate Plain(c: char) {
    'a' <= c <= 'z' || 'A' <= c <= 'Z' || '0' <= c <= '9' || c in "-_./:,@%+"
  }

  predicate Blank(c: char) {
    c == ' ' || c == '\t'
  }

  /** The word under construction, or none between words. */
  type Word = Option<string>

  function Grow(word: Word, c: char): Word {
    Some((if word.Some? then word.value else "") + [c])
  }

  function Open(word: Word): Word {
    Some(if word.Some? then word.value else "")
  }

  function Close(word: Word, rest: Option<seq<string>>): Option<seq<string>> {
    if rest.None? then None else Some((if word.Some? then [word.value] else []) + rest.value)
  }

  /** The words of a command line, or None when it is not made of quoting alone. */
  function Words(s: string, mode: Mode, word: Word): Option<seq<string>>
    decreases |s|
  {
    match mode
    case Bare =>
      if s == "" then Close(word, Some([]))
      else if Blank(s[0]) then Close(word, Words(s[1..], Bare, None))
      else if s[0] == '\'' then Words(s[1..], Single, Open(word))
      else if s[0] == '\"' then Words(s[1..], Double, Open(word))
      else if s[0] == '\\' then
        if |s| < 2 then None
        else if s[1] == '\n' then Words(s[2..], Bare, word)
        else Words(s[2..], Bare, Grow(word, s[1]))
      else if Plain(s[0]) then Words(s[1..], Bare, Grow(word, s[0]))
      else None
    case Single =>
      if s == "" then None
      else if s[0] == '\'' then Words(s[1..], Bare, word)
      else Words(s[1..], Single, Grow(word, s[0]))
    case Double =>
      if s == "" then None
      else if s[0] == '\"' then Words(s[1..], Bare, word)
      else if s[0] == '$' || s[0] == '`' then None
      else if s[0] == '\\' && |s| >= 2 && s[1] == '\n' then Words(s[2..], Double, word)
      else if s[0] == '\\' && |s| >= 2 && s[1] in "$`\"\\" then Words(s[2..], Double, Grow(word, s[1]))
      else Words(s[1..], Double, Grow(word, s[0]))
  }

  function Split(line: string): Option<seq<string>> {
    Words(line, Bare, None)
  }

  // ---------------------------------------------------------------- quoting

  /** Close the quotes, put a double-quoted single quote, and open them again. */
  const QUOTED_QUOTE := "'\"'\"'"

  function Escape(value: string): string {
    if value == "" then ""
    else (if value[0] == '\'' then QUOTED_QUOTE else [value[0]]) + Escape(value[1..])
  }

  function Quote(value: string): string {
    "'" + Escape(value) + "'"
  }

  lemma {:induction false} EscapedInside(value: string, rest: string, word: string)
    ensures Words(Escape(value) + "'" + rest, Single, Some(word)) == Words(rest, Bare, Some(word + value))
    decreases |value|
  {
    var line := Escape(value) + "'" + rest;
    if value == "" {
      assert line == "'" + rest && line[1..] == rest;
      assert word + value == word;
    } else {
      var tail := Escape(value[1..]) + "'" + rest;
      assert word + value == (word + [value[0]]) + value[1..];
      EscapedInside(value[1..], rest, word + [value[0]]);
      if value[0] == '\'' {
        assert line == QUOTED_QUOTE + tail;
        QuotedQuote(tail, word);
      } else {
        assert line == [value[0]] + tail && line[1..] == tail;
      }
    }
  }

  lemma QuotedQuote(tail: string, word: string)
    ensures Words(QUOTED_QUOTE + tail, Single, Some(word)) == Words(tail, Single, Some(word + "'"))
  {
    var s0 := QUOTED_QUOTE + tail;
    var s1 := "\"'\"'" + tail;
    var s2 := "'\"'" + tail;
    var s3 := "\"'" + tail;
    var s4 := "'" + tail;
    assert s0[1..] == s1 && s1[1..] == s2 && s2[1..] == s3 && s3[1..] == s4 && s4[1..] == tail;
    assert Words(s0, Single, Some(word)) == Words(s1, Bare, Some(word));
    assert Words(s1, Bare, Some(word)) == Words(s2, Double, Some(word));
    assert Words(s2, Double, Some(word)) == Words(s3, Double, Some(word + "'"));
    assert Words(s3, Double, Some(word + "'")) == Words(s4, Bare, Some(word + "'"));
  }

  /** A quoted value adds exactly its characters to the word, whatever they are. */
  lemma QuotedWord(value: string, rest: string)
    ensures Words(Quote(value) + rest, Bare, None) == Words(rest, Bare, Some(value))
  {
    var line := Quote(value) + rest;
    assert line[1..] == Escape(value) + "'" + rest;
    EscapedInside(value, rest, "");
    assert "" + value == value;
  }

  lemma WordEnds(word: string)
    ensures Words("", Bare, Some(word)) == Some([word])
  {
    assert [word] + [] == [word];
  }

  lemma WordBreaks(word: string, tail: string)
    ensures Words(" " + tail, Bare, Some(word)) == Close(Some(word), Words(tail, Bare, None))
  {
    assert (" " + tail)[1..] == tail;
  }

  /** Quoting and splitting are inverse on every string. */
  lemma QuoteRoundTrip(value: string)
    ensures Split(Quote(value)) == Some([value])
  {
    assert Quote(value) + "" == Quote(value);
    QuotedWord(value, "");
    WordEnds(value);
  }

  lemma PlainIsLiteral(c: char)
    requires Plain(c)
    ensures !Blank(c) && c != '\'' && c != '\"' && c != '\\'
  {
  }

  lemma {:induction false} PlainPart(part: string, rest: string, word: string)
    requires forall c :: c in part ==> Plain(c)
    ensures Words(part + rest, Bare, Some(word)) == Words(rest, Bare, Some(word + part))
    decreases |part|
  {
    if part == "" {
      assert part + rest == rest && word + part == word;
    } else {
      assert (part + rest)[1..] == part[1..] + rest;
      PlainIsLiteral(part[0]);
      PlainPart(part[1..], rest, word + [part[0]]);
      assert (word + [part[0]]) + part[1..] == word + part;
    }
  }

  lemma PlainWord(part: string, rest: string)
    requires part != "" && forall c :: c in part ==> Plain(c)
    ensures Words(part + rest, Bare, None) == Words(rest, Bare, Some(part))
  {
    assert (part + rest)[1..] == part[1..] + rest;
    PlainIsLiteral(part[0]);
    assert "" + [part[0]] == [part[0]];
    PlainPart(part[1..], rest, [part[0]]);
    assert [part[0]] + part[1..] == part;
  }

  /** A line of words, each printed plain or quoted. */
  datatype Printed = AsIs(word: string) | InQuotes(word: string)

  predicate Printable(p: Printed) {
    p.AsIs? ==> p.word != "" && forall c :: c in p.word ==> Plain(c)
  }

  function PrintOne(p: Printed): string {
    match p
    case AsIs(word) => word
    case InQuotes(word) => Quote(word)
  }

  /** Words separated by single spaces. */
  function Print(ps: seq<Printed>): string {
    if ps == [] then ""
    else if |ps| == 1 then PrintOne(ps[0])
    else PrintOne(ps[0]) + " " + Print(ps[1..])
  }

  function WordsOf(ps: seq<Printed>): seq<string> {
    if ps == [] then [] else [ps[0].word] + WordsOf(ps[1..])
  }

  /** Any printed line is read back word by word. */
  lemma {:induction false} PrintSplit(ps: seq<Printed>)
    requires forall i :: 0 <= i < |ps| ==> Printable(ps[i])
    ensures Split(Print(ps)) == Some(WordsOf(ps))
    decreases |ps|
  {
    hide Words, Plain;
    if ps == [] {
      NoWords();
    } else {
      var p := ps[0];
      var rest := if |ps| == 1 then "" else " " + Print(ps[1..]);
      assert Print(ps) == PrintOne(p) + rest;
      if p.AsIs? { PlainWord(p.word, rest); } else { QuotedWord(p.word, rest); }
      if |ps| > 1 {
        WordBreaks(p.word, Print(ps[1..]));
        PrintSplit(ps[1..]);
      } else {
        WordEnds(p.word);
        assert ps[1..] == [] && [p.word] + [] == [p.word];
      }
    }
  }

  lemma NoWords()
    ensures Split("") == Some([])
  {
    var none: seq<string> := [];
    assert none + none == none;
  }
}
