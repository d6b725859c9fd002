/** The characters behind the scanners, trimming and identifiers, by code point: which
    open a literal or a comment, which end one, which count as blank and which are trimmed. */
module Characters {
  import opened Text
  import opened SqlLexer
  import opened Splitter
  import opened SplitterTheory
  import opened Identifier

  // ---------- white space and trimming ----------

  /** The code points of unicode.IsSpace. */
  predicate IsWhiteCode(n: int) {
    || 9 <= n <= 13 || n in {32, 0x85, 0xA0, 0x1680}
    || 0x2000 <= n <= 0x200A || n in {0x2028, 0x2029, 0x202F, 0x205F, 0x3000}
  }

  lemma {:induction false} TrimRight(c: char, s: string)
    requires IsSpace(c)
    ensures TrimSpace(s + [c]) == TrimSpace(s)
  {
    var t := s + [c];
    if s == "" {
      assert t[1..] == "";
    } else if IsSpace(s[0]) {
      TrimRight(c, s[1..]);
      assert t[1..] == s[1..] + [c];
    } else {
      assert t[0] == s[0] && t[..|t| - 1] == s;
    }
  }

  /** At either end of a text these characters are trimmed, and no other is. */
  lemma {:induction false} TrimByCode(c: char, s: string)
    ensures IsWhiteCode(c as int) ==> TrimSpace([c] + s) == TrimSpace(s) && TrimSpace(s + [c]) == TrimSpace(s)
    ensures !IsWhiteCode(c as int) ==> TrimSpace([c]) == [c] && TrimSpace([c] + s + [c]) == [c] + s + [c]
  {
    if IsSpace(c) {
      assert ([c] + s)[1..] == s;
      TrimRight(c, s);
    } else {
      var t := [c] + s + [c];
      assert t[0] == c && t[|t| - 1] == c;
    }
  }

  // ---------- which lexeme starts here ----------

  /** Two minus signs open a comment before tab, LF, FF, CR and space, and at the end. */
  lemma {:induction false} DashCommentByCode(c: char, x: string)
    ensures StartsLineComment("--" + [c] + x) <==> c as int in {9, 10, 12, 13, 32}
    ensures StartsLineComment("--")
  {
    var s := "--" + [c] + x;
    assert s[0] == '-' && s[1] == '-' && s[2] == c;
  }

  /** `s` begins with minus, minus, and one of five blanks or nothing. */
  predicate BeginsWithDashes(s: string) {
    |s| > 1 && s[0] as int == 45 && s[1] as int == 45 && (|s| == 2 || s[2] as int in {9, 10, 12, 13, 32})
  }

  lemma {:induction false} LexemeByCode(s: string)
    requires s != ""
    ensures var l := First(s).0;
            && (l == Semicolon <==> s[0] as int == 59)
            && (l.Quoted? <==> s[0] as int in {34, 39, 96}) && (l.Quoted? ==> l.quote == s[0])
            && (l.LineComment? <==> s[0] as int == 35 || BeginsWithDashes(s))
            && (l.BlockComment? <==> |s| > 1 && s[0] as int == 47 && s[1] as int == 42)
            && (l.Plain? ==> l.c == s[0])
  {
  }

  // ---------- where a lexeme ends ----------

  /** A line comment ends with LF or CR, and with no other character before the end. */
  lemma {:induction false} LineCommentByCode(body: string, c: char, x: string)
    requires forall k :: 0 <= k < |body| ==> body[k] as int != 10 && body[k] as int != 13
    ensures First("#" + body) == (LineComment("#" + body), "")
    ensures c as int == 10 || c as int == 13 ==>
              First("#" + body + [c] + x) == (LineComment("#" + body + [c]), x)
  {
    var t := "#" + body;
    assert forall k :: 0 < k < |t| ==> t[k] == body[k - 1];
    assert t + "" == t;
    LineUnique(t, "");
    if c as int == 10 || c as int == 13 {
      var u := t + [c];
      assert forall k :: 0 <= k < |t| ==> u[k] == t[k];
      assert (u + x)[0] == '#' && u[|u| - 1] == c;
      LineUnique(u, x);
    }
  }

  /** Star, slash: the end of a block comment; the star may be the one that opened it. */
  predicate HasEndMark(s: string) {
    exists k :: 0 <= k < |s| - 1 && s[k] as int == 42 && s[k + 1] as int == 47
  }

  lemma {:induction false} OpenBlockByCode(body: string)
    requires !HasEndMark("*" + body + "*")
    ensures First("/*" + body) == (BlockComment("/*" + body), "")
  {
    var u, text := "*" + body + "*", "/*" + body;
    assert forall k :: 1 <= k < |text| ==> text[k] == u[k - 1];
    forall k: nat | 1 <= k < |text| - 2
      ensures !ClosesBlock(text, k)
    {
      assert text[k] == u[k - 1] && text[k + 1] == u[k];
    }
    assert text + "" == text;
    BlockUnique(text, "");
  }

  lemma {:induction false} BlockCommentByCode(body: string, x: string)
    requires !HasEndMark("*" + body + "*")
    ensures First("/*" + body + "*/" + x) == (BlockComment("/*" + body + "*/"), x)
    ensures First("/*" + body) == (BlockComment("/*" + body), "")
  {
    var u, text := "*" + body + "*", "/*" + body + "*/";
    assert forall k :: 1 <= k <= |u| ==> text[k] == u[k - 1];
    forall k: nat | 1 <= k < |text| - 2
      ensures !ClosesBlock(text, k)
    {
      assert text[k] == u[k - 1] && text[k + 1] == u[k];
    }
    assert text[|text| - 2] == '*' && text[|text| - 1] == '/';
    BlockUnique(text, x);
    OpenBlockByCode(body);
  }

  lemma {:induction false} ShortestBlockComment(x: string)
    ensures First("/*/" + x) == (BlockComment("/*/"), x)
  {
    BlockUnique("/*/", x);
  }

  /** Inside a literal a backslash takes the next character with it and a doubled quote
      stands for one: neither ends the literal, whatever follows. */
  lemma {:induction false} PairsByCode(quote: char, c: char, s: string)
    requires quote as int in {34, 39, 96}
    ensures ReadQuoted(quote, [92 as char, c] + s).1 == ReadQuoted(quote, s).1
    ensures ReadQuoted(quote, [92 as char, c] + s).2 == ReadQuoted(quote, s).2
    ensures ReadQuoted(quote, [quote, quote] + s).1 == ReadQuoted(quote, s).1
    ensures ReadQuoted(quote, [quote, quote] + s).2 == ReadQuoted(quote, s).2
  {
    assert ([92 as char, c] + s)[2..] == s && ([quote, quote] + s)[2..] == s;
  }

  /** Up to its first quote, and without a backslash, a literal is plain text. */
  lemma {:induction false} LiteralByCode(quote: char, body: string, x: string)
    requires quote as int in {34, 39, 96}
    requires forall k :: 0 <= k < |body| ==> body[k] != quote && body[k] as int != 92
    requires x == "" || x[0] != quote
    ensures ReadQuoted(quote, body + [quote] + x).1 && ReadQuoted(quote, body + [quote] + x).2 == x
    ensures !ReadQuoted(quote, body).1 && ReadQuoted(quote, body).2 == ""
  {
    var s := body + [quote] + x;
    if body == "" {
      assert s[0] == quote && s[1..] == x;
    } else {
      LiteralByCode(quote, body[1..], x);
      assert s[1..] == body[1..] + [quote] + x;
    }
  }

  // ---------- code, and what splitting accepts ----------

  /** A text has code unless it consists of comments and of tab, LF, FF, CR and space. */
  lemma {:induction false} CodeByCode(s: string)
    requires s != ""
    ensures HasCode(s) <==>
            (!First(s).0.LineComment? && !First(s).0.BlockComment? && s[0] as int !in {9, 10, 12, 13, 32}) ||
            HasCode(First(s).1)
    ensures !HasCode("")
  {
    HasCodeCons(s);
    LexemeByCode(s);
  }

  /** One character alone is code unless it is one of five blanks or opens a comment. */
  lemma {:induction false} OneCharacterCode(c: char)
    ensures HasCode([c]) <==> c as int !in {9, 10, 12, 13, 32, 35}
  {
    CodeByCode([c]);
    LexemeByCode([c]);
    if First([c]).0.Quoted? || First([c]).0.Plain? || First([c]).0.Semicolon? {
      assert First([c]).1 == "";
    }
  }

  /** Every character is trimmed away. */
  predicate IsWhite(s: string) {
    forall k :: 0 <= k < |s| ==> IsWhiteCode(s[k] as int)
  }

  lemma {:induction false} TrimToNothing(s: string)
    ensures TrimSpace(s) == "" <==> IsWhite(s)
  {
    var left, right := TrimSpaceSplits(s);
    if TrimSpace(s) == "" {
      assert s == left + right;
      assert forall k :: 0 <= k < |s| ==> s[k] in left || s[k] in right;
    } else {
      var c := TrimSpace(s)[0];
      assert s[|left|] == c;
    }
  }

  /** A split succeeds exactly when every group has code, but for a white last one after
      others; the statements are the trimmed groups without that one. */
  lemma {:induction false} SplitExact(sql: string)
    ensures var groups := RawGroups(sql);
            var n := |groups|;
            && (Split(sql).Success? <==>
                  (forall i :: 0 <= i < n - 1 ==> HasCode(groups[i])) &&
                  (HasCode(groups[n - 1]) || (n > 1 && IsWhite(groups[n - 1]))))
            && (Split(sql).Success? ==>
                  var m := if HasCode(groups[n - 1]) then n else n - 1;
                  |Split(sql).value| == m && forall i :: 0 <= i < m ==> Split(sql).value[i] == TrimSpace(groups[i]))
  {
    var groups := RawGroups(sql);
    var last := |groups| - 1;
    TrimToNothing(groups[last]);
    assert Passes(groups, last) <==> HasCode(groups[last]) || (|groups| > 1 && IsWhite(groups[last]));
    if Acceptable(groups) {
      forall i | 0 <= i < last
        ensures HasCode(groups[i])
      {
        assert Passes(groups, i);
      }
    }
  }

  lemma {:induction false} BlanksAlone(blanks: string)
    requires forall k :: 0 <= k < |blanks| ==> blanks[k] as int in {9, 10, 12, 13, 32}
    ensures RawGroups(blanks) == [blanks] && !HasCode(blanks)
  {
    SealedCuts(blanks);
    if blanks == "" {
    } else {
      BlanksAlone(blanks[1..]);
      SealedCuts(blanks[1..]);
      LexemeByCode(blanks);
      CodeByCode(blanks);
      assert blanks == [blanks[0]] + blanks[1..];
      PlainFirst(blanks[0], blanks[1..]);
    }
  }

  lemma {:induction false} WhiteLastGroup(sql: string, other: string, blanks: string)
    requires Split(sql).Success? && HasCode(RawGroups(sql)[|RawGroups(sql)| - 1])
    requires RawGroups(other) == RawGroups(sql) + [blanks] && IsWhite(blanks) && !HasCode(blanks)
    ensures Split(other) == Split(sql)
  {
    var groups := RawGroups(sql);
    SplitExact(sql);
    SplitExact(other);
    assert forall i :: 0 <= i < |groups| ==> RawGroups(other)[i] == groups[i];
    assert Split(other).value == Split(sql).value;
  }

  /** A final semicolon and blanks after it change nothing. */
  lemma {:induction false} FinalSemicolon(sql: string, blanks: string)
    requires SafeEnd(sql) && Split(sql).Success? && HasCode(RawGroups(sql)[|RawGroups(sql)| - 1])
    requires forall k :: 0 <= k < |blanks| ==> blanks[k] as int in {9, 10, 12, 13, 32}
    ensures Split(sql + ";" + blanks) == Split(sql)
  {
    BlanksAlone(blanks);
    CompositionExact(sql);
    assert RawGroups(sql + ";" + blanks) == RawGroups(sql) + RawGroups(blanks);
    WhiteLastGroup(sql, sql + ";" + blanks, blanks);
  }

  // ---------- identifiers ----------

  /** Letters, digits and underscores of ASCII, not starting with a digit. */
  lemma {:induction false} IdentifierByCode(s: string)
    ensures IsIdentifier(s) <==>
            && s != "" && !(48 <= s[0] as int <= 57)
            && forall k :: 0 <= k < |s| ==>
                 48 <= s[k] as int <= 57 || 65 <= s[k] as int <= 90 || s[k] as int == 95 || 97 <= s[k] as int <= 122
  {
    if IsIdentifier(s) {
      assert forall k :: 0 <= k < |s| ==> s[k] in s;
    }
  }
}
