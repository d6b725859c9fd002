/** Build, join, split: `executeOperation` joins built statements with "; " and feeds them
    to the statement splitter, which gives back exactly the built statements. */
module TypedPipeline {
  import opened Text
  import opened SqlLexer
  import opened Splitter
  import opened SplitterTheory
  import opened Operation
  import opened OperationTheory
  import opened RequestReader

  /** Scanned alone: no cut, code, and nothing left open at its end. */
  predicate Solid(s: string) {
    Sealed(s) && SafeEnd(s) && HasCode(s)
  }

  predicate Quiet(s: string) {
    Sealed(s) && SafeEnd(s)
  }

  lemma {:induction false} QuietStep(l: Lexeme, rest: string)
    requires Fits(l, rest) && !l.Semicolon? && Complete(l) && Quiet(rest)
    ensures Quiet(LexemeText(l) + rest)
    ensures HasCode(LexemeText(l) + rest) <==> IsCode(l) || HasCode(rest)
  {
    var s := LexemeText(l) + rest;
    FirstUnique(l, rest);
    CutsOf(l, rest);
    SealedCuts(rest);
    SealedCuts(s);
    SafeEndTail(s);
    CodeOf(l, rest);
  }

  lemma {:induction false} QuietText(text: string, rest: string)
    requires Benign(text) && Quiet(rest)
    ensures Quiet(text + rest)
  {
    if text == "" {
      assert text + rest == rest;
    } else {
      QuietText(text[1..], rest);
      assert text + rest == [text[0]] + (text[1..] + rest);
      assert IsBenign(text[0]);
      QuietStep(Plain(text[0]), text[1..] + rest);
    }
  }

  function RawItems(name: string): seq<QuotedItem> {
    if name == "" then [] else [Raw(name[0])] + RawItems(name[1..])
  }

  lemma {:induction false} RawItemsFit(name: string, rest: string)
    requires Benign(name)
    ensures ItemsFit('`', RawItems(name), rest) && ItemsText('`', RawItems(name)) == name
  {
    if name == "" {
    } else {
      RawItemsFit(name[1..], rest);
      assert IsBenign(name[0]);
      ItemsCons('`', Raw(name[0]), RawItems(name[1..]), rest);
      assert RawItems(name)[1..] == RawItems(name[1..]);
    }
  }

  /** A quoted identifier is one literal, whatever follows that is not a backtick. */
  lemma {:induction false} QuietName(name: string, rest: string)
    requires Benign(name) && Quiet(rest) && (rest == "" || rest[0] != '`')
    ensures Quiet("`" + name + ("`" + rest))
  {
    var l := Quoted('`', RawItems(name), true);
    RawItemsFit(name, Closing('`', true, rest));
    assert LexemeText(l) + rest == "`" + name + ("`" + rest);
    QuietStep(l, rest);
  }

  lemma {:induction false} QuietRender(slots: seq<Slot>)
    requires BenignSlots(slots)
    ensures Quiet(Render(slots))
  {
    if slots == [] {
      assert Lex("") == [] && RawGroups("") == [""];
    } else {
      var text := slots[0].text;
      var rest := text + Render(slots[1..]);
      QuietRender(slots[1..]);
      QuietText(text, Render(slots[1..]));
      if |slots| == 1 {
        assert rest == text;
      }
      assert rest != "" && text != "" ==> rest[0] == text[0] && IsBenign(text[0]);
      QuietName(slots[0].name, rest);
      assert Render(slots) == "`" + slots[0].name + ("`" + rest);
    }
  }

  lemma {:induction false} TrimmedAlready(s: string)
    requires s != "" ==> !IsSpace(s[0]) && !IsSpace(s[|s| - 1])
    ensures TrimSpace(s) == s
  {
  }

  lemma {:induction false} RenderEnds(slots: seq<Slot>)
    requires EndsTight(slots)
    ensures var s := Render(slots); s != "" && !IsSpace(s[|s| - 1])
  {
    var tail := Render(slots[1..]);
    if |slots| == 1 {
      assert Render(slots) == "`" + slots[0].name + ("`" + slots[0].text + "");
    } else {
      RenderEnds(slots[1..]);
      assert Render(slots)[|Render(slots)| - 1] == tail[|tail| - 1];
    }
  }

  /** A clean shape prints one solid statement that trimming leaves alone. */
  lemma {:induction false} CleanIsSolid(shape: Shape)
    requires shape.Clean()
    ensures Solid(shape.Text()) && TrimSpace(shape.Text()) == shape.Text()
  {
    var head, tail := shape.head, Render(shape.slots);
    QuietRender(shape.slots);
    QuietText(head[1..], tail);
    var rest := head[1..] + tail;
    assert shape.Text() == [head[0]] + rest;
    assert IsBenign(head[0]);
    QuietStep(Plain(head[0]), rest);
    RenderEnds(shape.slots);
    assert shape.Text()[|shape.Text()| - 1] == tail[|tail| - 1];
    TrimmedAlready(shape.Text());
  }

  // ---------- joining and splitting ----------

  lemma {:induction false} QuietBlank(s: string)
    requires Solid(s)
    ensures Solid(" " + s) && TrimSpace(" " + s) == TrimSpace(s)
  {
    QuietStep(Plain(' '), s);
    assert (" " + s)[1..] == s;
  }

  /** The pieces between the semicolons of a "; "-join: all but the first have a leading space. */
  function Pieces(statements: seq<string>): seq<string> {
    seq(|statements|, i requires 0 <= i < |statements| => if i == 0 then statements[0] else " " + statements[i])
  }

  lemma {:induction false} JoinBlank(tail: seq<string>, blank: seq<string>)
    requires tail != [] && |blank| == |tail| && forall i :: 0 <= i < |tail| ==> blank[i] == " " + tail[i]
    requires Join(tail, "; ") == Join(Pieces(tail), ";")
    ensures Join(blank, ";") == " " + Join(tail, "; ")
  {
    var pieces := Pieces(tail);
    if |tail| > 1 {
      assert blank[1..] == pieces[1..];
      assert Join(pieces, ";") == tail[0] + ";" + Join(pieces[1..], ";");
      assert Join(blank, ";") == " " + tail[0] + ";" + Join(blank[1..], ";");
    }
  }

  lemma {:induction false} JoinPieces(statements: seq<string>)
    requires statements != []
    ensures Join(statements, "; ") == Join(Pieces(statements), ";")
  {
    if |statements| > 1 {
      var tail := statements[1..];
      JoinPieces(tail);
      var blank := seq(|tail|, i requires 0 <= i < |tail| => " " + tail[i]);
      assert Pieces(statements) == [statements[0]] + blank;
      JoinCons(statements[0], blank, ";");
      JoinBlank(tail, blank);
      assert statements == [statements[0]] + tail;
      JoinCons(statements[0], tail, "; ");
    }
  }

  /** Splitting the "; "-join of solid, trimmed statements gives back exactly these. */
  lemma {:induction false} SplitJoined(statements: seq<string>)
    requires statements != []
    requires forall i :: 0 <= i < |statements| ==> Solid(statements[i]) && TrimSpace(statements[i]) == statements[i]
    ensures Split(Join(statements, "; ")) == Success(statements)
  {
    var pieces := Pieces(statements);
    forall i | 0 <= i < |pieces|
      ensures Solid(pieces[i]) && TrimSpace(pieces[i]) == statements[i]
    {
      QuietBlank(statements[i]);
    }
    JoinPieces(statements);
    JoinRecovered(pieces);
    assert Kept(pieces) == pieces;
    assert Trimmed(pieces) == statements;
  }

  /** For every accepted request of either builder, splitting the joined SQL succeeds and
      returns exactly the built statements, in order. */
  lemma {:induction false} BuildJoinSplit(dialect: Dialect, request: Request)
    requires Build(dialect, request).Success?
    ensures Split(Join(Build(dialect, request).value, "; ")) == Success(Build(dialect, request).value)
    ensures 1 <= |Build(dialect, request).value| <= 2
  {
    BuildPrintsShapes(dialect, request);
    var statements, shapes := Build(dialect, request).value, Shapes(dialect, request);
    forall i | 0 <= i < |statements|
      ensures Solid(statements[i]) && TrimSpace(statements[i]) == statements[i]
    {
      CleanIsSolid(shapes[i]);
    }
    SplitJoined(statements);
  }

  /** Two accepted requests whose joined SQL is the same text are the same request. */
  lemma {:induction false} JoinedTextInjective(dialect: Dialect, a: Request, b: Request)
    requires Build(dialect, a).Success? && Build(dialect, b).Success?
    requires Join(Build(dialect, a).value, "; ") == Join(Build(dialect, b).value, "; ")
    ensures a == b
  {
    BuildJoinSplit(dialect, a);
    BuildJoinSplit(dialect, b);
    BuildInjective(dialect, a, b);
  }

  predicate LeadsWithSchemaKeyword(statement: string) {
    "CREATE " <= statement || "DROP " <= statement || "ALTER " <= statement || "RENAME " <= statement
  }

  lemma {:induction false} HeadLeads(dialect: Dialect, request: Request)
    requires Build(dialect, request).Success?
    ensures LeadsWithSchemaKeyword(ShapeOf(dialect, request).head)
  {
    var head := ShapeOf(dialect, request).head;
    match request
    case DropTable(_) => assert head == "DROP TABLE " && "DROP " <= head;
    case DropIndex(_, _) => assert head == "DROP INDEX " && "DROP " <= head;
    case RenameTable(_, _) => assert head == "RENAME TABLE " && "RENAME " <= head;
    case CreateTable(_, _) => assert head == "CREATE TABLE " && "CREATE " <= head;
    case CopyTable(_, _, _) => assert head == "CREATE TABLE " && "CREATE " <= head;
    case CreateIndex(_, _, _, _) => assert head[0] == 'C' && "CREATE " <= head;
    case _ => assert head == "ALTER TABLE " && "ALTER " <= head;
  }

  lemma {:induction false} PrefixLeads(head: string, rest: string)
    requires LeadsWithSchemaKeyword(head)
    ensures LeadsWithSchemaKeyword(head + rest)
  {
  }

  /** The first statement of every accepted request begins with a schema keyword. */
  lemma {:induction false} BuildLeadsWithSchemaKeyword(dialect: Dialect, request: Request)
    requires Build(dialect, request).Success?
    ensures LeadsWithSchemaKeyword(Build(dialect, request).value[0])
  {
    BuildPrintsShapes(dialect, request);
    HeadLeads(dialect, request);
    var shape := Shapes(dialect, request)[0];
    PrefixLeads(shape.head, Render(shape.slots));
  }
}
