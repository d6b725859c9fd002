/** internal/database/clickhouse.go: reading a column type's outer wrapper and whether the
    type is nullable, proved against a type tree and against balanced parentheses. */
module ClickHouseTypes {
  import opened Text

  // ---------- normalising ----------

  /** Lower case for ASCII letters; other letters are left alone. */
  function Lower(c: char): char {
    if 'A' <= c <= 'Z' then c - 'A' + 'a' else c
  }

  /** All white space removed, then lower case. */
  function Normalize(s: string): (n: string)
    ensures |n| <= |s|
  {
    if s == "" then ""
    else if IsSpace(s[0]) then Normalize(s[1..])
    else [Lower(s[0])] + Normalize(s[1..])
  }

  lemma {:induction false} NormalizeCons(c: char, s: string)
    ensures Normalize([c] + s) == if IsSpace(c) then Normalize(s) else [Lower(c)] + Normalize(s)
  {
    assert ([c] + s)[1..] == s;
  }

  lemma {:induction false} NormalizeStep(c: char, a: string, b: string)
    requires Normalize(a + b) == Normalize(a) + Normalize(b)
    ensures Normalize([c] + a + b) == Normalize([c] + a) + Normalize(b)
  {
    NormalizeCons(c, a);
    NormalizeCons(c, a + b);
    ConcatAssoc([c], a, b);
    ConcatAssoc([Lower(c)], Normalize(a), Normalize(b));
  }

  lemma {:induction false} NormalizeConcat(a: string, b: string)
    ensures Normalize(a + b) == Normalize(a) + Normalize(b)
  {
    if a == "" {
      assert a + b == b && "" + Normalize(b) == Normalize(b);
    } else {
      NormalizeConcat(a[1..], b);
      NormalizeStep(a[0], a[1..], b);
      assert a == [a[0]] + a[1..];
    }
  }

  /** One character, by code point: white space is dropped, A to Z become a to z, and any
      other stands for itself. */
  lemma {:induction false} NormalizeByCode(c: char)
    ensures var n := c as int;
            Normalize([c]) ==
            if 9 <= n <= 13 || n in {32, 0x85, 0xA0, 0x1680} || 0x2000 <= n <= 0x200A ||
               n in {0x2028, 0x2029, 0x202F, 0x205F, 0x3000} then ""
            else if 65 <= n <= 90 then [(n + 32) as char]
            else [c]
  {
    assert [c] == [c] + "" && Normalize("") == "";
    NormalizeCons(c, "");
  }

  /** White space put in anywhere, and a letter in the other case, make no difference. */
  lemma {:induction false} NormalizeInsensitive(before: string, c: char, d: char, after: string)
    ensures IsSpace(c) ==> Normalize(before + [c] + after) == Normalize(before + after)
    ensures !IsSpace(c) && !IsSpace(d) && Lower(c) == Lower(d) ==>
              Normalize(before + [c] + after) == Normalize(before + [d] + after)
  {
    NormalizeConcat(before, after);
    NormalizeConcat(before + [c], after);
    NormalizeConcat(before + [d], after);
    NormalizeConcat(before, [c]);
    NormalizeConcat(before, [d]);
    NormalizeCons(c, "");
    NormalizeCons(d, "");
    assert [c] + "" == [c] && [d] + "" == [d] && Normalize(before) + "" == Normalize(before);
  }

  predicate IsNormal(s: string) {
    forall c <- s :: !IsSpace(c) && Lower(c) == c
  }

  lemma {:induction false} NormalizeIsNormal(s: string)
    ensures IsNormal(Normalize(s))
  {
    if s == "" {
    } else {
      NormalizeIsNormal(s[1..]);
    }
  }

  lemma {:induction false} NormalStays(s: string)
    requires IsNormal(s)
    ensures Normalize(s) == s
  {
    if s == "" {
    } else {
      assert s[0] in s && forall c <- s[1..] :: c in s;
      NormalStays(s[1..]);
    }
  }

  lemma {:induction false} NormalizeTwice(s: string)
    ensures Normalize(Normalize(s)) == Normalize(s)
  {
    NormalizeIsNormal(s);
    NormalStays(Normalize(s));
  }

  // ---------- balanced parentheses ----------

  /** A text whose parentheses match: other characters and parenthesised texts in a row. */
  datatype Forest = Empty | Leaf(c: char, rest: Forest) | Nest(inside: Forest, rest: Forest)

  function ForestText(f: Forest): string {
    match f
    case Empty => ""
    case Leaf(c, rest) => [c] + ForestText(rest)
    case Nest(inside, rest) => "(" + (ForestText(inside) + (")" + ForestText(rest)))
  }

  predicate IsForest(f: Forest) {
    match f
    case Empty => true
    case Leaf(c, rest) => c != '(' && c != ')' && IsForest(rest)
    case Nest(inside, rest) => IsForest(inside) && IsForest(rest)
  }

  ghost predicate Balanced(s: string) {
    exists f :: IsForest(f) && ForestText(f) == s
  }

  /** The same by counting: with `depth` parentheses open, `s` closes them all and never more. */
  predicate ClosesAll(s: string, depth: nat) {
    if s == "" then depth == 0
    else if s[0] == '(' then ClosesAll(s[1..], depth + 1)
    else if s[0] == ')' then depth > 0 && ClosesAll(s[1..], depth - 1)
    else ClosesAll(s[1..], depth)
  }

  lemma {:induction false} CloseStep(c: char, x: string, depth: nat)
    ensures ClosesAll([c] + x, depth) ==
            if c == '(' then ClosesAll(x, depth + 1)
            else if c == ')' then depth > 0 && ClosesAll(x, depth - 1)
            else ClosesAll(x, depth)
  {
    assert ([c] + x)[1..] == x;
  }

  lemma {:induction false} NestCloses(inside: string, x: string, depth: nat)
    requires ClosesAll(inside + (")" + x), depth + 1) == ClosesAll(")" + x, depth + 1)
    ensures ClosesAll("(" + (inside + (")" + x)), depth) == ClosesAll(x, depth)
  {
    CloseStep('(', inside + (")" + x), depth);
    CloseStep(')', x, depth + 1);
  }

  lemma {:induction false} NestRegroup(a: string, b: string, x: string)
    ensures "(" + (a + (")" + b)) + x == "(" + (a + (")" + (b + x)))
  {
  }

  lemma {:induction false} ForestCloses(f: Forest, x: string, depth: nat)
    requires IsForest(f)
    ensures ClosesAll(ForestText(f) + x, depth) == ClosesAll(x, depth)
  {
    match f
    case Empty => assert "" + x == x;
    case Leaf(c, rest) =>
      ForestCloses(rest, x, depth);
      CloseStep(c, ForestText(rest) + x, depth);
      ConcatAssoc([c], ForestText(rest), x);
    case Nest(inside, rest) =>
      ForestCloses(inside, ")" + (ForestText(rest) + x), depth + 1);
      ForestCloses(rest, x, depth);
      NestCloses(ForestText(inside), ForestText(rest) + x, depth);
      NestRegroup(ForestText(inside), ForestText(rest), x);
  }

  /** Texts separated by closing parentheses. */
  function Closed(forests: seq<Forest>): string {
    if forests == [] then ""
    else if |forests| == 1 then ForestText(forests[0])
    else ForestText(forests[0]) + (")" + Closed(forests[1..]))
  }

  lemma {:induction false} CountedIsForests(s: string, depth: nat) returns (forests: seq<Forest>)
    requires ClosesAll(s, depth)
    ensures |forests| == depth + 1 && (forall f <- forests :: IsForest(f)) && Closed(forests) == s
  {
    if s == "" {
      forests := [Empty];
    } else if s[0] == '(' {
      var more := CountedIsForests(s[1..], depth + 1);
      forests := [Nest(more[0], more[1])] + more[2..];
      assert more[1..][1..] == more[2..];
      assert Closed(more) == ForestText(more[0]) + (")" + Closed(more[1..]));
      assert forests[1..] == more[2..];
      assert s == "(" + s[1..];
      if depth == 0 {
        assert Closed(more[1..]) == ForestText(more[1]);
      } else {
        assert Closed(more[1..]) == ForestText(more[1]) + (")" + Closed(more[2..]));
      }
    } else if s[0] == ')' {
      var more := CountedIsForests(s[1..], depth - 1);
      forests := [Empty] + more;
      assert forests[1..] == more && s == ")" + s[1..];
    } else {
      var more := CountedIsForests(s[1..], depth);
      forests := [Leaf(s[0], more[0])] + more[1..];
      assert forests[1..] == more[1..] && s == [s[0]] + s[1..];
    }
  }

  lemma {:induction false} BalancedByCounting(s: string)
    ensures Balanced(s) <==> ClosesAll(s, 0)
  {
    if Balanced(s) {
      var f :| IsForest(f) && ForestText(f) == s;
      ForestCloses(f, "", 0);
      assert s + "" == s;
    }
    if ClosesAll(s, 0) {
      var forests := CountedIsForests(s, 0);
      assert forests[0] in forests;
    }
  }

  lemma {:induction false} BalancedCloses(s: string, x: string, depth: nat)
    requires Balanced(s)
    ensures ClosesAll(s + x, depth) == ClosesAll(x, depth)
  {
    var f :| IsForest(f) && ForestText(f) == s;
    ForestCloses(f, x, depth);
  }

  lemma {:induction false} PlainCloses(s: string, x: string, depth: nat)
    requires '(' !in s && ')' !in s
    ensures ClosesAll(s + x, depth) == ClosesAll(x, depth)
  {
    if s == "" {
      assert s + x == x;
    } else {
      assert s[0] in s && (s + x)[1..] == s[1..] + x;
      PlainCloses(s[1..], x, depth);
    }
  }

  lemma {:induction false} WrappedCloses(wrapper: string, inside: string, x: string, depth: nat)
    requires '(' !in wrapper && ')' !in wrapper
    requires ClosesAll(inside + (")" + x), depth + 1) == ClosesAll(")" + x, depth + 1)
    ensures ClosesAll(wrapper + ("(" + (inside + ")")) + x, depth) == ClosesAll(x, depth)
  {
    var after := ")" + x;
    PlainCloses(wrapper, "(" + (inside + after), depth);
    NestCloses(inside, x, depth);
    assert wrapper + ("(" + (inside + ")")) + x == wrapper + ("(" + (inside + after));
  }

  // ---------- the outer wrapper ----------

  /** `n` is `wrapper(inner)`: a non-empty wrapper without `(`, and balanced inside. */
  ghost predicate IsWrapped(n: string, wrapper: string, inner: string) {
    && n == wrapper + ("(" + (inner + ")"))
    && wrapper != "" && '(' !in wrapper && Balanced(inner)
  }

  lemma {:induction false} OnlyInside(n: string, wrapper: string, inner: string, other: string, content: string)
    requires '(' !in wrapper && '(' !in other
    requires n == wrapper + ("(" + (inner + ")")) && n == other + ("(" + (content + ")"))
    ensures wrapper == other && inner == content
  {
    assert n == wrapper + ['('] + (inner + ")");
    assert n == other + ['('] + (content + ")");
    FirstMark('(', wrapper, inner + ")", other, content + ")");
    assert (inner + ")")[..|inner|] == inner && (content + ")")[..|content|] == content;
  }

  lemma {:induction false} WrappedUnique(n: string, wrapper: string, inner: string, other: string, content: string)
    requires IsWrapped(n, wrapper, inner) && IsWrapped(n, other, content)
    ensures wrapper == other && inner == content
  {
    OnlyInside(n, wrapper, inner, other, content);
  }

  lemma {:induction false} FirstCharacter(n: string, first: char, rest: string, wrapper: string, inner: string)
    requires n == [first] + rest && IsWrapped(n, wrapper, inner)
    ensures wrapper[0] == first
  {
    assert n[0] == first && n[0] == wrapper[0];
  }

  function IndexOfOpen(s: string): (i: nat)
    ensures i <= |s| && '(' !in s[..i] && (i < |s| ==> s[i] == '(')
  {
    if s == "" || s[0] == '(' then 0 else 1 + IndexOfOpen(s[1..])
  }

  /** The wrapper and inner text of a type, if it has that form. */
  function OuterWrapper(typeName: string): (r: Option<(string, string)>)
    ensures r.Some? ==> |r.value.1| < |Normalize(typeName)| && |r.value.1| < |typeName|
  {
    var n := Normalize(typeName);
    var open := IndexOfOpen(n);
    if 0 < open < |n| - 1 && n[|n| - 1] == ')' && ClosesAll(n[open + 1..|n| - 1], 0) then
      Some((n[..open], n[open + 1..|n| - 1]))
    else None
  }

  lemma {:induction false} OpenAfter(wrapper: string, x: string)
    requires '(' !in wrapper
    ensures IndexOfOpen(wrapper + ("(" + x)) == |wrapper|
  {
    if wrapper == "" {
      assert wrapper + ("(" + x) == "(" + x;
    } else {
      OpenAfter(wrapper[1..], x);
      assert wrapper[0] in wrapper && (wrapper + ("(" + x))[1..] == wrapper[1..] + ("(" + x);
    }
  }

  lemma {:induction false} FoundIsWrapped(typeName: string)
    requires OuterWrapper(typeName).Some?
    ensures var (wrapper, inner) := OuterWrapper(typeName).value; IsWrapped(Normalize(typeName), wrapper, inner)
  {
    var n := Normalize(typeName);
    var open := IndexOfOpen(n);
    BalancedByCounting(n[open + 1..|n| - 1]);
    assert n == n[..open] + ("(" + (n[open + 1..|n| - 1] + ")"));
  }

  lemma {:induction false} WrappedIsFound(typeName: string, wrapper: string, inner: string)
    requires IsWrapped(Normalize(typeName), wrapper, inner)
    ensures OuterWrapper(typeName) == Some((wrapper, inner))
  {
    var n := Normalize(typeName);
    BalancedByCounting(inner);
    OpenAfter(wrapper, inner + ")");
    assert n[..|wrapper|] == wrapper && n[|wrapper| + 1..|n| - 1] == inner;
  }

  /** The wrapper is found exactly when the normalized text has that form, and it is the one. */
  lemma {:induction false} OuterWrapperExact(typeName: string, wrapper: string, inner: string)
    ensures OuterWrapper(typeName) == Some((wrapper, inner)) <==> IsWrapped(Normalize(typeName), wrapper, inner)
  {
    if OuterWrapper(typeName) == Some((wrapper, inner)) {
      FoundIsWrapped(typeName);
    }
    if IsWrapped(Normalize(typeName), wrapper, inner) {
      WrappedIsFound(typeName, wrapper, inner);
    }
  }

  lemma {:induction false} InnerIsNormal(typeName: string)
    requires OuterWrapper(typeName).Some?
    ensures Normalize(OuterWrapper(typeName).value.1) == OuterWrapper(typeName).value.1
  {
    var n, inner := Normalize(typeName), OuterWrapper(typeName).value.1;
    NormalizeIsNormal(typeName);
    assert forall i :: 0 <= i < |inner| ==> inner[i] == n[IndexOfOpen(n) + 1 + i] && inner[i] in n;
    NormalStays(inner);
  }

  /** strings.IndexByte for `(`: its position, or -1. */
  method IndexByteOpen(s: string) returns (i: int)
    ensures i == if IndexOfOpen(s) < |s| then IndexOfOpen(s) else -1
  {
    for k := 0 to |s|
      invariant IndexOfOpen(s) == k + IndexOfOpen(s[k..])
    {
      if s[k] == '(' { return k; }
      assert s[k..][1..] == s[k + 1..];
    }
    return -1;
  }

  lemma {:induction false} SliceStep(s: string, i: nat, last: nat, depth: nat)
    requires i < last <= |s|
    ensures ClosesAll(s[i..last], depth) ==
            if s[i] == '(' then ClosesAll(s[i + 1..last], depth + 1)
            else if s[i] == ')' then depth > 0 && ClosesAll(s[i + 1..last], depth - 1)
            else ClosesAll(s[i + 1..last], depth)
  {
    assert s[i..last][1..] == s[i + 1..last];
  }

  lemma {:induction false} WrapperByScan(typeName: string)
    requires var n := Normalize(typeName); 0 < IndexOfOpen(n) < |n| && n[|n| - 1] == ')'
    ensures var n, open := Normalize(typeName), IndexOfOpen(Normalize(typeName));
            && open < |n| - 1
            && var inside := n[open + 1..|n| - 1];
            OuterWrapper(typeName) == if ClosesAll(inside, 0) then Some((n[..open], inside)) else None
  {
  }

  /** The scanning loop. Its test for a negative depth never fires: `depth` is at least one
      whenever a character after the first parenthesis is looked at. */
  method ScanParentheses(s: string, open: nat) returns (ok: bool)
    requires open < |s| - 1 && s[open] == '(' && s[|s| - 1] == ')'
    ensures ok == ClosesAll(s[open + 1..|s| - 1], 0)
  {
    var depth, last := 0, |s| - 1;
    ghost var closes := ClosesAll(s[open + 1..last], 0);
    for i := open to |s|
      invariant i == open ==> depth == 0
      invariant open < i <= last ==> depth >= 1 && closes == ClosesAll(s[i..last], depth - 1)
      invariant i == last + 1 ==> depth >= 0 && closes == (depth == 0)
    {
      if open < i < last {
        SliceStep(s, i, last, depth - 1);
      }
      if s[i] == '(' {
        depth := depth + 1;
      } else if s[i] == ')' {
        depth := depth - 1;
        assert depth >= 0;
        if depth < 0 || (depth == 0 && i != last) {
          return false;
        }
      }
    }
    return depth == 0;
  }

  method ClickHouseOuterWrapper(typeName: string) returns (wrapper: string, inner: string, ok: bool)
    ensures OuterWrapper(typeName) == if ok then Some((wrapper, inner)) else None
    ensures !ok ==> wrapper == "" && inner == ""
    ensures ok ==> |inner| < |Normalize(typeName)|
  {
    var normalized := Normalize(typeName);
    var open := IndexByteOpen(normalized);
    if open <= 0 || normalized[|normalized| - 1] != ')' {
      return "", "", false;
    }
    WrapperByScan(typeName);
    ok := ScanParentheses(normalized, open);
    if !ok {
      return "", "", false;
    }
    return normalized[..open], normalized[open + 1..|normalized| - 1], true;
  }

  // ---------- nullable types ----------

  /** What the peeling loop computes. */
  function PeelsToNullable(typeName: string): bool
    decreases |typeName|
  {
    match OuterWrapper(typeName)
    case None => false
    case Some((wrapper, inner)) => wrapper == "nullable" || (wrapper == "lowcardinality" && PeelsToNullable(inner))
  }

  method IsClickHouseNullable(typeName: string) returns (nullable: bool)
    ensures nullable == PeelsToNullable(typeName)
  {
    var wrapper, inner, ok := ClickHouseOuterWrapper(typeName);
    while ok && wrapper == "lowcardinality"
      invariant PeelsToNullable(typeName) ==
                (ok && (wrapper == "nullable" || (wrapper == "lowcardinality" && PeelsToNullable(inner))))
      decreases if ok then |inner| + 1 else 0
    {
      wrapper, inner, ok := ClickHouseOuterWrapper(inner);
    }
    return ok && wrapper == "nullable";
  }

  /** `content` inside `nullable` inside `k` times `lowcardinality`. */
  function Layers(k: nat, content: string): string {
    if k == 0 then "nullable" + ("(" + (content + ")"))
    else "lowcardinality" + ("(" + (Layers(k - 1, content) + ")"))
  }

  ghost predicate ReadsNullable(n: string) {
    exists k: nat, content :: Balanced(content) && n == Layers(k, content)
  }

  lemma {:induction false} WrappedPeels(text: string, wrapper: string, inner: string)
    requires IsWrapped(Normalize(text), wrapper, inner)
    ensures PeelsToNullable(text) <==>
            wrapper == "nullable" || (wrapper == "lowcardinality" && PeelsToNullable(inner))
    ensures Normalize(inner) == inner
  {
    OuterWrapperExact(text, wrapper, inner);
    InnerIsNormal(text);
  }

  lemma {:induction false} LayersBalanced(k: nat, content: string)
    requires Balanced(content)
    ensures Balanced(Layers(k, content))
  {
    var wrapper := if k == 0 then "nullable" else "lowcardinality";
    var inside := if k == 0 then content else Layers(k - 1, content);
    if k == 0 {
    } else {
      LayersBalanced(k - 1, content);
    }
    BalancedCloses(inside, ")" + "", 1);
    WrappedCloses(wrapper, inside, "", 0);
    assert Layers(k, content) == wrapper + ("(" + (inside + ")")) + "";
    BalancedByCounting(Layers(k, content));
  }

  lemma {:induction false} LayersWrapped(k: nat, content: string) returns (wrapper: string, inner: string)
    requires Balanced(content)
    ensures IsWrapped(Layers(k, content), wrapper, inner)
    ensures wrapper == (if k == 0 then "nullable" else "lowcardinality")
    ensures k > 0 ==> inner == Layers(k - 1, content)
  {
    if k == 0 {
      return "nullable", content;
    } else {
      LayersBalanced(k - 1, content);
      return "lowcardinality", Layers(k - 1, content);
    }
  }

  lemma {:induction false} PeeledLayers(text: string) returns (k: nat, content: string)
    requires PeelsToNullable(text)
    ensures Balanced(content) && Normalize(text) == Layers(k, content)
    decreases |text|
  {
    var (wrapper, inner) := OuterWrapper(text).value;
    OuterWrapperExact(text, wrapper, inner);
    if wrapper == "nullable" {
      k, content := 0, inner;
    } else {
      InnerIsNormal(text);
      k, content := PeeledLayers(inner);
      k := k + 1;
    }
  }

  lemma {:induction false} OuterLayer(n: string) returns (wrapper: string, inner: string)
    requires ReadsNullable(n)
    ensures IsWrapped(n, wrapper, inner)
    ensures wrapper == "nullable" || (wrapper == "lowcardinality" && ReadsNullable(inner))
  {
    var k: nat, content :| Balanced(content) && n == Layers(k, content);
    wrapper, inner := LayersWrapped(k, content);
  }

  lemma {:induction false} LayersPeeled(text: string)
    requires ReadsNullable(Normalize(text))
    ensures PeelsToNullable(text)
    decreases |Normalize(text)|
  {
    var wrapper, inner := OuterLayer(Normalize(text));
    WrappedPeels(text, wrapper, inner);
    if wrapper != "nullable" {
      LayersPeeled(inner);
    }
  }

  /** For every text: the answer is true exactly when the normalized text has that form.
      Parentheses are matched by counting, inside quotes as well as outside. */
  lemma {:induction false} PeelsExact(text: string)
    ensures PeelsToNullable(text) <==> ReadsNullable(Normalize(text))
    ensures PeelsToNullable(text) ==> ClosesAll(Normalize(text), 0)
  {
    if PeelsToNullable(text) {
      var k, content := PeeledLayers(text);
      LayersBalanced(k, content);
      BalancedByCounting(Layers(k, content));
    }
    if ReadsNullable(Normalize(text)) {
      LayersPeeled(text);
    }
  }

  // ---------- types ----------

  /** A ClickHouse type, or an argument of one: a name, a name applied to arguments, or a
      quoted text and what follows it, as in `'a)' = 1`. */
  datatype ChType =
    | Named(name: string)
    | Applied(name: string, args: seq<ChType>)
    | Quoted(mark: char, body: string, rest: string)

  /** Names are not empty once white space is gone, and have no parenthesis or comma. */
  predicate IsName(name: string) {
    Normalize(name) != "" && forall c <- name :: c != '(' && c != ')' && c != ','
  }

  predicate IsMark(c: char) {
    c == '\'' || c == '"' || c == '`'
  }

  /** Nothing is asked of a quoted text or of what follows it. */
  predicate IsType(t: ChType) {
    match t
    case Named(name) => IsName(name)
    case Applied(name, args) => IsName(name) && forall arg <- args :: IsType(arg)
    case Quoted(mark, _, _) => IsMark(mark)
  }

  function TypeText(t: ChType): string {
    match t
    case Named(name) => name
    case Applied(name, args) => name + ("(" + (ArgsText(args) + ")"))
    case Quoted(mark, body, rest) => [mark] + (body + ([mark] + rest))
  }

  function ArgsText(args: seq<ChType>): string {
    if args == [] then ""
    else if |args| == 1 then TypeText(args[0])
    else TypeText(args[0]) + (", " + ArgsText(args[1..]))
  }

  /** The normalized text between the parentheses of an applied type. */
  function Inside(t: ChType): string
    requires t.Applied?
  {
    Normalize(ArgsText(t.args))
  }

  predicate IsNamed(t: ChType, name: string) {
    t.Applied? && Normalize(t.name) == name
  }

  /** What is left of a type under LowCardinality wrappers with a single argument. */
  function Core(t: ChType): ChType {
    if IsNamed(t, "lowcardinality") && |t.args| == 1 then Core(t.args[0]) else t
  }

  /** Nullable, under any number of LowCardinality wrappers with a single argument. */
  predicate IsNullableType(t: ChType) {
    IsNamed(Core(t), "nullable")
  }

  /** No quoted text leaves a parenthesis open or closes one too many. */
  predicate LiteralsClose(t: ChType) {
    match t
    case Named(_) => true
    case Applied(_, args) => forall arg <- args :: LiteralsClose(arg)
    case Quoted(_, _, _) => ClosesAll(Normalize(TypeText(t)), 0)
  }

  lemma {:induction false} NormalizeKeeps(s: string, c: char)
    requires c !in s && !('a' <= c <= 'z')
    ensures c !in Normalize(s)
  {
    if s == "" {
    } else {
      NormalizeKeeps(s[1..], c);
      assert s[0] in s;
    }
  }

  lemma {:induction false} NormalName(name: string)
    requires IsName(name)
    ensures '(' !in Normalize(name) && ')' !in Normalize(name) && ',' !in Normalize(name)
  {
    NormalizeKeeps(name, '(');
    NormalizeKeeps(name, ')');
    NormalizeKeeps(name, ',');
  }

  lemma {:induction false} AppliedNormal(name: string, args: seq<ChType>)
    ensures Normalize(TypeText(Applied(name, args))) == Normalize(name) + ("(" + (Normalize(ArgsText(args)) + ")"))
  {
    NormalizeConcat(name, "(" + (ArgsText(args) + ")"));
    NormalizeConcat("(", ArgsText(args) + ")");
    NormalizeConcat(ArgsText(args), ")");
    assert Normalize("(") == "(" && Normalize(")") == ")";
  }

  lemma {:induction false} QuotedNormal(mark: char, body: string, rest: string)
    requires IsMark(mark)
    ensures Normalize(TypeText(Quoted(mark, body, rest))) == [mark] + Normalize(body + ([mark] + rest))
  {
    NormalizeCons(mark, body + ([mark] + rest));
  }

  lemma {:induction false} ArgsNormal(args: seq<ChType>)
    requires |args| > 1
    ensures Normalize(ArgsText(args)) == Normalize(TypeText(args[0])) + ("," + Normalize(ArgsText(args[1..])))
  {
    NormalizeConcat(TypeText(args[0]), ", " + ArgsText(args[1..]));
    NormalizeConcat(", ", ArgsText(args[1..]));
    assert ", "[1..] == " " && " "[1..] == "" && Normalize(", ") == ",";
  }

  // ---------- the answer for every type ----------

  lemma {:induction false} NotWrappedNotPeeled(text: string)
    requires '(' !in Normalize(text)
    ensures !PeelsToNullable(text)
  {
    var n := Normalize(text);
    assert forall i :: 0 <= i < |n| ==> n[i] in n;
  }

  lemma {:induction false} QuotedNotPeeled(text: string, t: ChType)
    requires IsType(t) && t.Quoted? && Normalize(text) == Normalize(TypeText(t))
    ensures !PeelsToNullable(text)
  {
    QuotedNormal(t.mark, t.body, t.rest);
    if OuterWrapper(text).Some? {
      var (wrapper, inner) := OuterWrapper(text).value;
      OuterWrapperExact(text, wrapper, inner);
      FirstCharacter(Normalize(text), t.mark, Normalize(t.body + ([t.mark] + t.rest)), wrapper, inner);
      assert wrapper[0] == t.mark;
    }
  }

  /** The wrapper of an applied type is its name and what is inside is its arguments,
      provided that the parentheses of the arguments match by counting. */
  lemma {:induction false} AppliedPeels(text: string, t: ChType)
    requires IsType(t) && t.Applied? && Normalize(text) == Normalize(TypeText(t))
    ensures PeelsToNullable(text) <==>
            ClosesAll(Inside(t), 0) &&
            (IsNamed(t, "nullable") || (IsNamed(t, "lowcardinality") && PeelsToNullable(Inside(t))))
  {
    var name, inner := Normalize(t.name), Inside(t);
    AppliedNormal(t.name, t.args);
    NormalName(t.name);
    BalancedByCounting(inner);
    if Balanced(inner) {
      WrappedPeels(text, name, inner);
    } else if OuterWrapper(text).Some? {
      var (wrapper, content) := OuterWrapper(text).value;
      OuterWrapperExact(text, wrapper, content);
      OnlyInside(Normalize(text), name, inner, wrapper, content);
    }
  }

  /** For any rendering of a type, whatever its case and white space. A nullable type is
      recognised if and only if the parentheses inside its Nullable match by counting. A type
      that is not nullable is taken for one if and only if it comes down to a LowCardinality
      with several arguments (which ClickHouse does not accept) whose text together reads as
      a nullable type. */
  lemma {:induction false} NullableExact(text: string, t: ChType)
    requires IsType(t) && Normalize(text) == Normalize(TypeText(t))
    ensures IsNullableType(t) ==> (PeelsToNullable(text) <==> ClosesAll(Inside(Core(t)), 0))
    ensures !IsNullableType(t) ==>
              (PeelsToNullable(text) <==> IsNamed(Core(t), "lowcardinality") && ReadsNullable(Inside(Core(t))))
    decreases t
  {
    match t
    case Named(name) =>
      NormalName(name);
      NotWrappedNotPeeled(text);
    case Quoted(_, _, _) =>
      QuotedNotPeeled(text, t);
    case Applied(_, args) =>
      AppliedPeels(text, t);
      NormalizeTwice(ArgsText(args));
      PeelsExact(Inside(t));
      if IsNamed(t, "lowcardinality") && |args| == 1 {
        NullableExact(Inside(t), args[0]);
      }
  }

  // ---------- types whose literals have matching parentheses ----------

  lemma {:induction false} TypeCloses(t: ChType, x: string, depth: nat)
    requires IsType(t) && LiteralsClose(t)
    ensures ClosesAll(Normalize(TypeText(t)) + x, depth) == ClosesAll(x, depth)
    decreases t, 0
  {
    match t
    case Named(name) =>
      NormalName(name);
      PlainCloses(Normalize(name), x, depth);
    case Applied(name, args) =>
      AppliedNormal(name, args);
      NormalName(name);
      ArgsClose(args, ")" + x, depth + 1);
      WrappedCloses(Normalize(name), Normalize(ArgsText(args)), x, depth);
    case Quoted(_, _, _) =>
      BalancedByCounting(Normalize(TypeText(t)));
      BalancedCloses(Normalize(TypeText(t)), x, depth);
  }

  lemma {:induction false} ListRegroup(a: string, b: string, x: string)
    ensures a + ("," + b) + x == a + ("," + (b + x))
  {
  }

  lemma {:induction false} ArgsClose(args: seq<ChType>, x: string, depth: nat)
    requires forall arg <- args :: IsType(arg) && LiteralsClose(arg)
    ensures ClosesAll(Normalize(ArgsText(args)) + x, depth) == ClosesAll(x, depth)
    decreases args, 1
  {
    if args == [] {
      assert Normalize(ArgsText(args)) + x == x;
    } else if |args| == 1 {
      TypeCloses(args[0], x, depth);
    } else {
      ArgsNormal(args);
      var rest := Normalize(ArgsText(args[1..]));
      TypeCloses(args[0], "," + (rest + x), depth);
      CloseStep(',', rest + x, depth);
      ArgsClose(args[1..], x, depth);
      ListRegroup(Normalize(TypeText(args[0])), rest, x);
    }
  }

  /** A list that begins with a plain name: whatever stands before the first parenthesis
      has the comma in it. */
  lemma {:induction false} NameListWrapper(n: string, name: string, rest: string, wrapper: string, inner: string)
    requires '(' !in name && n == name + ("," + rest) && IsWrapped(n, wrapper, inner)
    ensures ',' in wrapper
  {
    assert n[|name|] == ',' && n[|wrapper|] == '(';
    assert forall i :: 0 <= i < |name| ==> n[i] == name[i] && name[i] in name;
    assert |wrapper| > |name|;
    assert wrapper[|name|] == ',';
  }

  lemma {:induction false} CutLast(inner: string, inside: string, tail: string)
    requires inner + ")" == inside + tail && tail != ""
    ensures inner == inside + tail[..|tail| - 1]
  {
    assert inner == (inner + ")")[..|inner|];
  }

  /** A list that begins with an applied type whose parentheses match is not wrapped at
      all: its first closing parenthesis is not its last character. */
  lemma {:induction false} AppliedListWrapper(n: string, first: ChType, rest: string, wrapper: string, inner: string)
    requires IsType(first) && first.Applied? && n == Normalize(TypeText(first)) + ("," + rest)
    requires ClosesAll(Inside(first), 0)
    ensures !IsWrapped(n, wrapper, inner)
  {
    AppliedNormal(first.name, first.args);
    NormalName(first.name);
    if IsWrapped(n, wrapper, inner) {
      var name, inside := Normalize(first.name), Inside(first);
      var tail := ")" + ("," + rest);
      assert n == name + ['('] + (inside + tail);
      assert n == wrapper + ['('] + (inner + ")");
      FirstMark('(', name, inside + tail, wrapper, inner + ")");
      CutLast(inner, inside, tail);
      BalancedByCounting(inner);
      BalancedByCounting(inside);
      BalancedCloses(inside, tail[..|tail| - 1], 0);
    }
  }

  lemma {:induction false} ListWrapped(n: string, first: ChType, rest: string, wrapper: string, inner: string)
    requires IsType(first) && n == Normalize(TypeText(first)) + ("," + rest) && IsWrapped(n, wrapper, inner)
    requires ',' !in wrapper && !IsMark(wrapper[0])
    ensures first.Applied? && !ClosesAll(Inside(first), 0)
  {
    match first
    case Named(name) =>
      NormalName(name);
      NameListWrapper(n, Normalize(name), rest, wrapper, inner);
    case Quoted(mark, body, after) =>
      QuotedNormal(mark, body, after);
      FirstCharacter(n, mark, Normalize(body + ([mark] + after)) + ("," + rest), wrapper, inner);
    case Applied(_, _) =>
      if ClosesAll(Inside(first), 0) {
        AppliedListWrapper(n, first, rest, wrapper, inner);
      }
  }

  /** Several arguments read together as a nullable type only if the first one is an
      applied type whose own parentheses do not match. */
  lemma {:induction false} ListReadsNullable(args: seq<ChType>)
    requires |args| > 1 && (forall arg <- args :: IsType(arg)) && ReadsNullable(Normalize(ArgsText(args)))
    ensures args[0].Applied? && !ClosesAll(Inside(args[0]), 0)
  {
    ArgsNormal(args);
    var n := Normalize(ArgsText(args));
    assert args[0] in args;
    var wrapper, inner := OuterLayer(n);
    ListWrapped(n, args[0], Normalize(ArgsText(args[1..])), wrapper, inner);
  }

  lemma {:induction false} CoreIsType(t: ChType)
    requires IsType(t) && LiteralsClose(t)
    ensures IsType(Core(t)) && LiteralsClose(Core(t))
    ensures !(IsNamed(Core(t), "lowcardinality") && |Core(t).args| == 1)
  {
    if IsNamed(t, "lowcardinality") && |t.args| == 1 {
      assert t.args[0] in t.args;
      CoreIsType(t.args[0]);
    }
  }

  lemma {:induction false} SeveralDoNotRead(t: ChType)
    requires IsType(t) && LiteralsClose(t) && t.Applied? && |t.args| != 1
    ensures !ReadsNullable(Inside(t))
  {
    if t.args == [] {
    } else {
      var first := t.args[0];
      assert first in t.args;
      if first.Applied? {
        ArgsClose(first.args, "", 0);
        assert Inside(first) + "" == Inside(first);
      }
      if ReadsNullable(Inside(t)) {
        ListReadsNullable(t.args);
      }
    }
  }

  /** When the parentheses in quoted texts match, the answer is always right. */
  lemma {:induction false} NullableWhenLiteralsClose(text: string, t: ChType)
    requires IsType(t) && LiteralsClose(t) && Normalize(text) == Normalize(TypeText(t))
    ensures PeelsToNullable(text) == IsNullableType(t)
  {
    NullableExact(text, t);
    CoreIsType(t);
    var core := Core(t);
    if core.Applied? {
      ArgsClose(core.args, "", 0);
      assert Inside(core) + "" == Inside(core);
      if IsNamed(core, "lowcardinality") {
        SeveralDoNotRead(core);
      }
    }
  }

  // ---------- types that are misread ----------

  predicate IsPlain(s: string) {
    '(' !in s && ')' !in s
  }

  lemma {:induction false} NormalPlain(s: string)
    requires IsPlain(s)
    ensures IsPlain(Normalize(s))
  {
    NormalizeKeeps(s, '(');
    NormalizeKeeps(s, ')');
  }

  lemma {:induction false} ClosedTooEarly(wrapper: string, before: string, after: string)
    requires IsPlain(wrapper) && IsPlain(before) && IsPlain(after)
    ensures !ClosesAll(wrapper + ("(" + (before + (")" + (after + ")")))), 0)
  {
    PlainCloses(wrapper, "(" + (before + (")" + (after + ")"))), 0);
    CloseStep('(', before + (")" + (after + ")")), 0);
    PlainCloses(before, ")" + (after + ")"), 1);
    CloseStep(')', after + ")", 1);
    PlainCloses(after, ")", 0);
  }

  lemma {:induction false} PairCloses(a: string, b: string, x: string, depth: nat)
    requires IsPlain(a) && IsPlain(b)
    ensures ClosesAll(a + ("(" + (b + (")" + x))), depth) == ClosesAll(x, depth)
  {
    PlainCloses(a, "(" + (b + (")" + x)), depth);
    PlainCloses(b, ")" + x, depth + 1);
    NestCloses(b, x, depth);
  }

  /** A label with the character `c` in it, and the plain text after the label. */
  function LabelOf(before: string, c: char, after: string, rest: string): ChType {
    Quoted('\'', before + ([c] + after), rest)
  }

  /** An Enum8 of one label and its value, as in `Enum8('a)' = 1)`. */
  function EnumOf(before: string, c: char, after: string, rest: string): ChType {
    Applied("Enum8", [LabelOf(before, c, after, rest)])
  }

  lemma {:induction false} LabelText(before: string, c: char, after: string, rest: string)
    ensures TypeText(LabelOf(before, c, after, rest)) == "'" + before + ([c] + (after + ("'" + rest)))
  {
    ConcatAssoc([c], after, "'" + rest);
    ConcatAssoc(before, [c] + after, "'" + rest);
    ConcatAssoc("'", before, [c] + (after + ("'" + rest)));
  }

  lemma {:induction false} LabelNormal(before: string, c: char, after: string, rest: string)
    requires c == '(' || c == ')'
    ensures Normalize(TypeText(LabelOf(before, c, after, rest))) ==
            Normalize("'" + before) + ([c] + Normalize(after + ("'" + rest)))
  {
    NormalizeConcat("'" + before, [c] + (after + ("'" + rest)));
    NormalizeCons(c, after + ("'" + rest));
    LabelText(before, c, after, rest);
  }

  lemma {:induction false} EnumNormal(before: string, c: char, after: string, rest: string)
    requires c == '(' || c == ')'
    ensures Normalize(TypeText(EnumOf(before, c, after, rest))) ==
            Normalize("Enum8") + ("(" + (Normalize("'" + before) + ([c] + Normalize(after + ("'" + rest))) + ")"))
  {
    AppliedNormal("Enum8", [LabelOf(before, c, after, rest)]);
    LabelNormal(before, c, after, rest);
  }

  predicate IsWordCharacter(c: char) {
    'A' <= c <= 'Z' || 'a' <= c <= 'z' || '0' <= c <= '9'
  }

  lemma {:induction false} WordNormal(name: string, lower: string)
    requires |name| == |lower| && forall i :: 0 <= i < |name| ==> IsWordCharacter(name[i]) && Lower(name[i]) == lower[i]
    ensures Normalize(name) == lower && IsPlain(name) && ',' !in name
  {
    if name == "" {
    } else {
      WordNormal(name[1..], lower[1..]);
      assert IsWordCharacter(name[0]) && lower == [lower[0]] + lower[1..];
    }
  }

  lemma {:induction false} KnownNullable()
    ensures IsName("Nullable") && Normalize("Nullable") == "nullable"
  {
    WordNormal("Nullable", "nullable");
  }

  lemma {:induction false} KnownLowCardinality()
    ensures IsName("LowCardinality") && Normalize("LowCardinality") == "lowcardinality"
  {
    WordNormal("LowCardinality", "lowcardinality");
  }

  lemma {:induction false} KnownEnum()
    ensures IsName("Enum8") && IsPlain(Normalize("Enum8"))
  {
    WordNormal("Enum8", "enum8");
  }

  lemma {:induction false} MissedInside(before: string, after: string, rest: string)
    requires IsPlain(before) && IsPlain(after) && IsPlain(rest)
    ensures !ClosesAll(Normalize(ArgsText([EnumOf(before, ')', after, rest)])), 0)
  {
    KnownEnum();
    EnumNormal(before, ')', after, rest);
    NormalPlain("'" + before);
    NormalPlain(after + ("'" + rest));
    var b, a := Normalize("'" + before), Normalize(after + ("'" + rest));
    ClosedTooEarly(Normalize("Enum8"), b, a);
    assert b + (")" + a) + ")" == b + (")" + (a + ")"));
  }

  /** For any label with one closing parenthesis and any value after it: that parenthesis
      closes the Enum8, and the type does not look nullable. */
  lemma {:induction false} NullableMissed(before: string, after: string, rest: string)
    requires IsPlain(before) && IsPlain(after) && IsPlain(rest)
    ensures var t := Applied("Nullable", [EnumOf(before, ')', after, rest)]);
            IsType(t) && IsNullableType(t) && !PeelsToNullable(TypeText(t))
  {
    KnownNullable();
    KnownEnum();
    MissedInside(before, after, rest);
    var t := Applied("Nullable", [EnumOf(before, ')', after, rest)]);
    NullableExact(TypeText(t), t);
  }

  lemma {:induction false} ExampleText()
    ensures TypeText(EnumOf("a", ')', "", " = 1")) == "Enum8" + ("(" + ("'a)' = 1" + ")"))
  {
    LabelText("a", ')', "", " = 1");
  }

  /** `Nullable(Enum8('a)' = 1))` is one of them. */
  lemma {:induction false} NullableEnumMissed()
    ensures var t := Applied("Nullable", [EnumOf("a", ')', "", " = 1")]);
            && TypeText(t) == "Nullable" + ("(" + ("Enum8" + ("(" + ("'a)' = 1" + ")")) + ")"))
            && IsType(t) && IsNullableType(t) && !PeelsToNullable(TypeText(t))
  {
    NullableMissed("a", "", " = 1");
    ExampleText();
  }

  lemma {:induction false} TwoPairsText(a: string, b: string, c: string, d: string, e: string)
    ensures "nullable" + ("(" + (a + ("(" + (b + (")" + ("," + c + ("(" + (d + (")" + e))))))) + ")")) ==
            "nullable" + ("(" + (a + ("(" + b) + ")")) + ("," + (c + ("(" + (d + (")" + e) + ")"))))
  {
  }

  lemma {:induction false} TwoPairsRead(a: string, b: string, c: string, d: string, e: string)
    requires IsPlain(a) && IsPlain(b) && IsPlain(c) && IsPlain(d) && IsPlain(e)
    ensures ReadsNullable("nullable" + ("(" + (a + ("(" + b) + ")")) + ("," + (c + ("(" + (d + (")" + e) + ")")))))
  {
    var content := a + ("(" + (b + (")" + ("," + c + ("(" + (d + (")" + e)))))));
    PlainCloses(e, "", 0);
    assert e + "" == e;
    PairCloses("," + c, d, e, 0);
    PairCloses(a, b, "," + c + ("(" + (d + (")" + e))), 0);
    BalancedByCounting(content);
    TwoPairsText(a, b, c, d, e);
    assert Layers(0, content) == "nullable" + ("(" + (content + ")"));
  }

  function CrowdedArgs(before: string, after: string, left: string, right: string, rest: string): seq<ChType> {
    [Applied("Nullable", [LabelOf(before, '(', after, "")]), EnumOf(left, ')', right, rest)]
  }

  lemma {:induction false} CrowdedInside(before: string, after: string, left: string, right: string, rest: string)
    requires IsPlain(before) && IsPlain(after) && IsPlain(left) && IsPlain(right) && IsPlain(rest)
    ensures ReadsNullable(Normalize(ArgsText(CrowdedArgs(before, after, left, right, rest))))
  {
    var first, second := Applied("Nullable", [LabelOf(before, '(', after, "")]), EnumOf(left, ')', right, rest);
    KnownNullable();
    KnownEnum();
    ArgsNormal([first, second]);
    assert [first, second][1..] == [second];
    AppliedNormal("Nullable", [LabelOf(before, '(', after, "")]);
    LabelNormal(before, '(', after, "");
    EnumNormal(left, ')', right, rest);
    NormalPlain("'" + before);
    NormalPlain(after + ("'" + ""));
    NormalPlain("'" + left);
    NormalPlain(right + ("'" + rest));
    TwoPairsRead(Normalize("'" + before), Normalize(after + ("'" + "")), Normalize("Enum8"), Normalize("'" + left),
                 Normalize(right + ("'" + rest)));
  }

  lemma {:induction false} CrowdedAreTypes(before: string, after: string, left: string, right: string, rest: string)
    ensures forall arg <- CrowdedArgs(before, after, left, right, rest) :: IsType(arg)
  {
    assert IsName("Nullable") by { KnownNullable(); }
    assert IsName("Enum8") by { KnownEnum(); }
  }

  /** A type like `LowCardinality(Nullable('('), Enum8(')' = 1))`, whose two arguments together
      look like a nullable type. */
  lemma {:induction false} NullableImagined(before: string, after: string, left: string, right: string, rest: string)
    requires IsPlain(before) && IsPlain(after) && IsPlain(left) && IsPlain(right) && IsPlain(rest)
    ensures var t := Applied("LowCardinality", CrowdedArgs(before, after, left, right, rest));
            IsType(t) && !IsNullableType(t) && PeelsToNullable(TypeText(t))
  {
    var t := Applied("LowCardinality", CrowdedArgs(before, after, left, right, rest));
    CrowdedAreTypes(before, after, left, right, rest);
    CrowdedInside(before, after, left, right, rest);
    KnownLowCardinality();
    assert Core(t) == t && IsNamed(t, "lowcardinality") && !IsNamed(t, "nullable");
    NullableExact(TypeText(t), t);
  }
}
