/** The lexical grammar that the statement splitter implements with a byte loop:
    quoted literals, two line-comment forms, block comments, semicolons and other
    characters. Every string has exactly one well-formed reading (`LexSound`,
    `LexUnique`), which is what the scanners are later proved to compute. */
module SqlLexer {
  import opened Text

  /** Inside a quoted literal: `\c`, a doubled quote, or one other character. */
  datatype QuotedItem = Escaped(c: char) | Doubled | Raw(c: char)

  datatype Lexeme =
    | Semicolon
    | Plain(c: char)
    | Quoted(quote: char, items: seq<QuotedItem>, closed: bool)
    | LineComment(text: string)
    | BlockComment(text: string)

  predicate IsQuote(c: char) {
    c == '\'' || c == '"' || c == '`'
  }

  predicate IsNewline(c: char) {
    c == '\n' || c == '\r'
  }

  predicate StartsDashComment(s: string) {
    |s| >= 2 && s[0] == '-' && s[1] == '-' && (|s| == 2 || IsBlank(s[2]))
  }

  predicate StartsLineComment(s: string) {
    s != "" && (s[0] == '#' || StartsDashComment(s))
  }

  predicate StartsBlockComment(s: string) {
    |s| >= 2 && s[0] == '/' && s[1] == '*'
  }

  // ---------- the text of a lexeme ----------

  function ItemText(quote: char, item: QuotedItem): string {
    match item
    case Escaped(c) => ['\\', c]
    case Doubled => [quote, quote]
    case Raw(c) => [c]
  }

  function ItemsText(quote: char, items: seq<QuotedItem>): string {
    if items == [] then "" else ItemText(quote, items[0]) + ItemsText(quote, items[1..])
  }

  function LexemeText(l: Lexeme): (s: string)
    ensures s != "" || l.LineComment? || l.BlockComment?
  {
    match l
    case Semicolon => ";"
    case Plain(c) => [c]
    case Quoted(quote, items, closed) => [quote] + ItemsText(quote, items) + (if closed then [quote] else "")
    case LineComment(text) => text
    case BlockComment(text) => text
  }

  function LexemesText(ls: seq<Lexeme>): string {
    if ls == [] then "" else LexemeText(ls[0]) + LexemesText(ls[1..])
  }

  // ---------- which lexemes are well formed before a given rest of the input ----------

  /** An item is complete: only the last character of the input can be a bare backslash. */
  predicate ItemsFit(quote: char, items: seq<QuotedItem>, rest: string)
    decreases |items|
  {
    items != [] ==>
      && (items[0].Raw? ==>
            && items[0].c != quote
            && (items[0].c == '\\' ==> ItemsText(quote, items[1..]) + rest == ""))
      && ItemsFit(quote, items[1..], rest)
  }

  /** What follows the items of a literal: its closing quote and the rest, or nothing. */
  function Closing(quote: char, closed: bool, rest: string): string {
    if closed then [quote] + rest else ""
  }

  /** A literal is read as far as possible: a closing quote is not doubled, and a
      literal without one reaches the end of the input. */
  predicate LiteralFits(quote: char, items: seq<QuotedItem>, closed: bool, rest: string) {
    && ItemsFit(quote, items, Closing(quote, closed, rest))
    && (rest == "" || (closed && rest[0] != quote))
  }

  predicate ClosesBlock(text: string, k: nat) {
    k + 1 < |text| && text[k] == '*' && text[k + 1] == '/'
  }

  /** `l` is a lexeme when `rest` follows it. A comment or literal that is not closed
      must reach the end of the input. The closing mark of a block comment may reuse
      the `*` of its opening mark, so the search for it starts at position 1. */
  predicate Fits(l: Lexeme, rest: string) {
    match l
    case Semicolon => true
    case Plain(c) =>
      && c != ';' && !IsQuote(c)
      && !StartsLineComment([c] + rest) && !StartsBlockComment([c] + rest)
    case Quoted(quote, items, closed) =>
      IsQuote(quote) && LiteralFits(quote, items, closed, rest)
    case LineComment(text) =>
      && text != ""
      && StartsLineComment(text + rest)
      && (forall k :: 0 <= k < |text| - 1 ==> !IsNewline(text[k]))
      && (rest == "" || IsNewline(text[|text| - 1]))
    case BlockComment(text) =>
      && StartsBlockComment(text)
      && (forall k: nat :: 1 <= k < |text| - 2 ==> !ClosesBlock(text, k))
      && (rest == "" || (|text| >= 3 && ClosesBlock(text, |text| - 2)))
  }

  predicate WellFormed(ls: seq<Lexeme>) {
    ls == [] || (Fits(ls[0], LexemesText(ls[1..])) && WellFormed(ls[1..]))
  }

  // ---------- reading a string ----------

  /** Reads the inside of a literal: its items, whether it closed, what remains. */
  function ReadQuoted(quote: char, s: string): (r: (seq<QuotedItem>, bool, string))
    ensures |r.2| <= |s|
  {
    if s == "" then ([], false, "")
    else if s[0] == '\\' && |s| > 1 then
      var (items, closed, rest) := ReadQuoted(quote, s[2..]);
      ([Escaped(s[1])] + items, closed, rest)
    else if s[0] == quote then
      if |s| > 1 && s[1] == quote then
        var (items, closed, rest) := ReadQuoted(quote, s[2..]);
        ([Doubled] + items, closed, rest)
      else
        ([], true, s[1..])
    else
      var (items, closed, rest) := ReadQuoted(quote, s[1..]);
      ([Raw(s[0])] + items, closed, rest)
  }

  /** Length of `s` up to and including its first line break. */
  function LineLength(s: string): (n: nat)
    ensures n <= |s|
    ensures forall k :: 0 <= k < n - 1 ==> !IsNewline(s[k])
    ensures n == |s| || (n > 0 && IsNewline(s[n - 1]))
  {
    if s == "" then 0
    else if IsNewline(s[0]) then 1
    else 1 + LineLength(s[1..])
  }

  /** Length of `s` up to and including its first closing mark. */
  function BlockLength(s: string): (n: nat)
    ensures n <= |s|
    ensures forall k: nat :: k < n - 2 ==> !ClosesBlock(s, k)
    ensures n == |s| || (n >= 2 && ClosesBlock(s, n - 2))
  {
    if |s| < 2 then |s|
    else if s[0] == '*' && s[1] == '/' then 2
    else
      assert forall k: nat :: k > 0 && ClosesBlock(s, k) ==> ClosesBlock(s[1..], k - 1);
      1 + BlockLength(s[1..])
  }

  function First(s: string): (r: (Lexeme, string))
    requires s != ""
    ensures |r.1| < |s|
  {
    if s[0] == ';' then (Semicolon, s[1..])
    else if IsQuote(s[0]) then
      var (items, closed, rest) := ReadQuoted(s[0], s[1..]);
      (Quoted(s[0], items, closed), rest)
    else if StartsLineComment(s) then
      var n := 1 + LineLength(s[1..]);
      (LineComment(s[..n]), s[n..])
    else if StartsBlockComment(s) then
      var n := 1 + BlockLength(s[1..]);
      (BlockComment(s[..n]), s[n..])
    else (Plain(s[0]), s[1..])
  }

  function Lex(s: string): seq<Lexeme>
    decreases |s|
  {
    if s == "" then [] else
      var (l, rest) := First(s);
      [l] + Lex(rest)
  }

  // ---------- every string has exactly one reading ----------

  lemma {:induction false} ItemsCons(quote: char, item: QuotedItem, items: seq<QuotedItem>, rest: string)
    requires ItemsFit(quote, items, rest)
    requires item.Raw? ==> item.c != quote && (item.c == '\\' ==> ItemsText(quote, items) + rest == "")
    ensures ItemsFit(quote, [item] + items, rest)
    ensures ItemsText(quote, [item] + items) + rest == ItemText(quote, item) + (ItemsText(quote, items) + rest)
  {
    assert ([item] + items)[1..] == items;
  }

  /** `items` and `closed` read `s` up to `rest`. */
  predicate IsReading(quote: char, s: string, items: seq<QuotedItem>, closed: bool, rest: string) {
    && LiteralFits(quote, items, closed, rest)
    && ItemsText(quote, items) + Closing(quote, closed, rest) == s
  }

  lemma {:induction false} ReadingCons(quote: char, item: QuotedItem, s: string, items: seq<QuotedItem>,
                                       closed: bool, rest: string)
    requires IsReading(quote, s, items, closed, rest)
    requires item.Raw? ==> item.c != quote && (item.c == '\\' ==> s == "")
    ensures IsReading(quote, ItemText(quote, item) + s, [item] + items, closed, rest)
  {
    ItemsCons(quote, item, items, Closing(quote, closed, rest));
  }

  /** A backslash with the character after it, or a doubled quote, in front of `s[2..]`. */
  lemma {:induction false} ReadPairSound(quote: char, s: string)
    requires IsQuote(quote) && |s| > 1 && (s[0] == '\\' || (s[0] == quote && s[1] == quote))
    requires var (items, closed, rest) := ReadQuoted(quote, s[2..]); IsReading(quote, s[2..], items, closed, rest)
    ensures var (items, closed, rest) := ReadQuoted(quote, s); IsReading(quote, s, items, closed, rest)
  {
    var (items, closed, rest) := ReadQuoted(quote, s[2..]);
    ReadingCons(quote, if s[0] == '\\' then Escaped(s[1]) else Doubled, s[2..], items, closed, rest);
    assert s == [s[0], s[1]] + s[2..];
  }

  lemma {:induction false} ReadQuotedSound(quote: char, s: string)
    requires IsQuote(quote)
    ensures var (items, closed, rest) := ReadQuoted(quote, s); IsReading(quote, s, items, closed, rest)
    decreases |s|
  {
    if s == "" {
    } else if (s[0] == '\\' && |s| > 1) || (s[0] == quote && |s| > 1 && s[1] == quote) {
      ReadQuotedSound(quote, s[2..]);
      ReadPairSound(quote, s);
    } else if s[0] == quote {
      assert s == [quote] + s[1..];
    } else {
      ReadQuotedSound(quote, s[1..]);
      var (items, closed, rest) := ReadQuoted(quote, s[1..]);
      ReadingCons(quote, Raw(s[0]), s[1..], items, closed, rest);
      assert s == [s[0]] + s[1..];
    }
  }

  lemma {:induction false} ReadItem(quote: char, item: QuotedItem, tail: string)
    requires IsQuote(quote)
    requires item.Raw? ==> item.c != quote && (item.c == '\\' ==> tail == "")
    ensures var (items, closed, rest) := ReadQuoted(quote, tail);
            ReadQuoted(quote, ItemText(quote, item) + tail) == ([item] + items, closed, rest)
  {
    var s := ItemText(quote, item) + tail;
    assert s[|ItemText(quote, item)|..] == tail;
  }

  lemma {:induction false} ReadClosing(quote: char, closed: bool, rest: string)
    requires IsQuote(quote) && (rest == "" || (closed && rest[0] != quote))
    ensures ReadQuoted(quote, Closing(quote, closed, rest)) == ([], closed, rest)
  {
    if closed { assert Closing(quote, closed, rest)[1..] == rest; }
  }

  lemma {:induction false} ReadQuotedUnique(quote: char, items: seq<QuotedItem>, closed: bool, rest: string)
    requires IsQuote(quote) && LiteralFits(quote, items, closed, rest)
    ensures ReadQuoted(quote, ItemsText(quote, items) + Closing(quote, closed, rest)) == (items, closed, rest)
    decreases |items|
  {
    var after := Closing(quote, closed, rest);
    if items == [] {
      ReadClosing(quote, closed, rest);
      assert "" + after == after;
    } else {
      ReadQuotedUnique(quote, items[1..], closed, rest);
      ReadItem(quote, items[0], ItemsText(quote, items[1..]) + after);
      ConcatAssoc(ItemText(quote, items[0]), ItemsText(quote, items[1..]), after);
      assert items == [items[0]] + items[1..];
    }
  }

  lemma {:induction false} LineSound(s: string)
    requires StartsLineComment(s)
    ensures var n := 1 + LineLength(s[1..]); Fits(LineComment(s[..n]), s[n..])
  {
    var n := 1 + LineLength(s[1..]);
    assert s == s[..n] + s[n..];
    assert forall k :: 0 < k < n ==> s[k] == s[1..][k - 1];
    assert !IsNewline(s[0]);
  }

  lemma {:induction false} BlockSound(s: string)
    requires StartsBlockComment(s)
    ensures var n := 1 + BlockLength(s[1..]); Fits(BlockComment(s[..n]), s[n..])
  {
    var n := 1 + BlockLength(s[1..]);
    var text := s[..n];
    assert n >= 2;
    forall k: nat | 1 <= k < |text| - 2
      ensures !ClosesBlock(text, k)
    {
      assert !ClosesBlock(s[1..], k - 1);
    }
    if s[n..] != "" {
      assert ClosesBlock(s[1..], n - 3);
      assert ClosesBlock(text, n - 2);
    }
  }

  lemma {:induction false} QuotedText(quote: char, items: seq<QuotedItem>, closed: bool, rest: string)
    requires !closed ==> rest == ""
    ensures LexemeText(Quoted(quote, items, closed)) + rest ==
            [quote] + (ItemsText(quote, items) + Closing(quote, closed, rest))
  {
  }

  lemma {:induction false} QuotedSound(s: string)
    requires s != "" && IsQuote(s[0])
    ensures var (l, rest) := First(s); Fits(l, rest) && LexemeText(l) + rest == s
  {
    ReadQuotedSound(s[0], s[1..]);
    var (items, closed, rest) := ReadQuoted(s[0], s[1..]);
    QuotedText(s[0], items, closed, rest);
    assert s == [s[0]] + s[1..];
  }

  lemma {:induction false} CommentSound(s: string)
    requires StartsLineComment(s) || StartsBlockComment(s)
    ensures var (l, rest) := First(s); Fits(l, rest) && LexemeText(l) + rest == s
  {
    var (l, rest) := First(s);
    if StartsLineComment(s) {
      LineSound(s);
    } else {
      BlockSound(s);
    }
    assert s == s[..|LexemeText(l)|] + s[|LexemeText(l)|..];
  }

  lemma {:induction false} FirstSound(s: string)
    requires s != ""
    ensures var (l, rest) := First(s); Fits(l, rest) && LexemeText(l) + rest == s
  {
    if IsQuote(s[0]) {
      QuotedSound(s);
    } else if StartsLineComment(s) || StartsBlockComment(s) {
      CommentSound(s);
    } else {
      assert s == [s[0]] + s[1..];
    }
  }

  lemma {:induction false} LineLengthUnique(body: string, rest: string)
    requires forall k :: 0 <= k < |body| - 1 ==> !IsNewline(body[k])
    requires rest == "" || (body != "" && IsNewline(body[|body| - 1]))
    ensures LineLength(body + rest) == |body|
  {
    var s := body + rest;
    assert forall k :: 0 <= k < |body| ==> s[k] == body[k];
  }

  lemma {:induction false} BlockLengthUnique(body: string, rest: string)
    requires forall k: nat :: k < |body| - 2 ==> !ClosesBlock(body, k)
    requires rest == "" || (|body| >= 2 && ClosesBlock(body, |body| - 2))
    ensures BlockLength(body + rest) == |body|
  {
    var s := body + rest;
    assert forall k: nat :: k + 1 < |body| ==> (ClosesBlock(s, k) <==> ClosesBlock(body, k));
  }

  lemma {:induction false} LineUnique(text: string, rest: string)
    requires Fits(LineComment(text), rest)
    ensures First(text + rest) == (LineComment(text), rest)
  {
    var s, body := text + rest, text[1..];
    assert s[1..] == body + rest;
    LineLengthUnique(body, rest);
    assert s[..|text|] == text && s[|text|..] == rest;
  }

  lemma {:induction false} BlockUnique(text: string, rest: string)
    requires Fits(BlockComment(text), rest)
    ensures First(text + rest) == (BlockComment(text), rest)
  {
    var s, body := text + rest, text[1..];
    assert s[1..] == body + rest;
    forall k: nat | k < |body| - 2
      ensures !ClosesBlock(body, k)
    {
      assert !ClosesBlock(text, k + 1);
    }
    if rest != "" { assert ClosesBlock(body, |body| - 2); }
    BlockLengthUnique(body, rest);
    assert s[..|text|] == text && s[|text|..] == rest;
  }

  lemma {:induction false} FirstQuoted(quote: char, inside: string)
    requires IsQuote(quote)
    ensures var (items, closed, rest) := ReadQuoted(quote, inside);
            First([quote] + inside) == (Quoted(quote, items, closed), rest)
  {
    assert ([quote] + inside)[1..] == inside;
  }

  lemma {:induction false} QuotedUnique(quote: char, items: seq<QuotedItem>, closed: bool, rest: string)
    requires Fits(Quoted(quote, items, closed), rest)
    ensures First(LexemeText(Quoted(quote, items, closed)) + rest) == (Quoted(quote, items, closed), rest)
  {
    ReadQuotedUnique(quote, items, closed, rest);
    FirstQuoted(quote, ItemsText(quote, items) + Closing(quote, closed, rest));
    QuotedText(quote, items, closed, rest);
  }

  lemma {:induction false} CharacterUnique(l: Lexeme, rest: string)
    requires (l.Semicolon? || l.Plain?) && Fits(l, rest)
    ensures First(LexemeText(l) + rest) == (l, rest)
  {
    var s := LexemeText(l) + rest;
    assert s[1..] == rest;
  }

  lemma {:induction false} FirstUnique(l: Lexeme, rest: string)
    requires Fits(l, rest)
    ensures LexemeText(l) + rest != "" && First(LexemeText(l) + rest) == (l, rest)
  {
    match l
    case Semicolon => CharacterUnique(l, rest);
    case Plain(_) => CharacterUnique(l, rest);
    case Quoted(quote, items, closed) => QuotedUnique(quote, items, closed, rest);
    case LineComment(text) => LineUnique(text, rest);
    case BlockComment(text) => BlockUnique(text, rest);
  }

  /** Every string is read as well-formed lexemes whose text is that string. */
  lemma {:induction false} LexSound(s: string)
    ensures WellFormed(Lex(s)) && LexemesText(Lex(s)) == s
    decreases |s|
  {
    if s == "" {
    } else {
      var (l, rest) := First(s);
      FirstSound(s);
      LexSound(rest);
      assert Lex(s)[1..] == Lex(rest);
    }
  }

  lemma {:induction false} LexOf(l: Lexeme, rest: string)
    requires Fits(l, rest)
    ensures LexemeText(l) + rest != ""
    ensures Lex(LexemeText(l) + rest) == [l] + Lex(rest)
  {
    FirstUnique(l, rest);
  }

  /** No other list of well-formed lexemes has that text. */
  lemma {:induction false} LexUnique(ls: seq<Lexeme>)
    requires WellFormed(ls)
    ensures Lex(LexemesText(ls)) == ls
    decreases |ls|
  {
    if ls == [] {
    } else {
      LexUnique(ls[1..]);
      LexOf(ls[0], LexemesText(ls[1..]));
      assert [ls[0]] + ls[1..] == ls;
    }
  }
}
