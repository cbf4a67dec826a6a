/** Adding help comments to dumped YAML, each key line getting the comment of its dotted
    path. White space is ASCII here. */
module CommentPaths {
  import opened Collections
  import opened IndentStack
  import opened Texts

  type Line = string

  predicate IsLetter(c: char) {
    'A' <= c <= 'Z' || 'a' <= c <= 'z' || c == '_'
  }

  predicate IsWord(c: char) {
    IsLetter(c) || '0' <= c <= '9'
  }

  function WordLength(s: string): (n: nat)
    ensures n <= |s|
  {
    if s == "" || !IsWord(s[0]) then 0 else 1 + WordLength(s[1..])
  }

  function KeyLength(stripped: string): (n: nat)
    ensures n == 0 || (n < |stripped| && stripped[n] == ':' && IsLetter(stripped[0]) && n == WordLength(stripped))
  {
    var n := WordLength(stripped);
    if 0 < n < |stripped| && IsLetter(stripped[0]) && stripped[n] == ':' then n else 0
  }

  type Head = Option<Entry<string>>

  /** Indentation and key, when it is a key line. */
  function HeadOf(line: Line): Head {
    if line != "" && IsSpace(line[0]) then
      var h := HeadOf(line[1..]);
      if h.None? then None else Some(Entry(h.value.indent + 1, h.value.key))
    else
      var n := KeyLength(line);
      if n > 0 then Some(Entry(0, line[..n])) else None
  }

  /** The trimmed text after the key's colon. */
  function Value(line: Line): string {
    if line != "" && IsSpace(line[0]) then Value(line[1..])
    else
      var n := KeyLength(line);
      if n > 0 then Strip(line[n + 1..]) else ""
  }

  function Heads(lines: seq<Line>): (heads: seq<Head>)
    ensures |heads| == |lines|
  {
    if lines == [] then [] else [HeadOf(lines[0])] + Heads(lines[1..])
  }

  lemma {:induction false} HeadsAt(lines: seq<Line>, k: nat)
    requires k < |lines|
    ensures Heads(lines)[k] == HeadOf(lines[k])
  {
    if k > 0 { HeadsAt(lines[1..], k - 1); }
  }

  predicate KeyText(key: string) {
    && key != "" && (key[0] == '_' || 'A' <= key[0] <= 'Z' || 'a' <= key[0] <= 'z')
    && forall k :: 0 <= k < |key| ==>
      key[k] == '_' || 'A' <= key[k] <= 'Z' || 'a' <= key[k] <= 'z' || '0' <= key[k] <= '9'
  }

  lemma {:induction false} WordLengthIs(s: string, n: nat)
    requires n < |s| && !IsWord(s[n]) && forall k :: 0 <= k < n ==> IsWord(s[k])
    ensures WordLength(s) == n
  {
    if n > 0 { WordLengthIs(s[1..], n - 1); }
  }

  lemma {:induction false} WordsBefore(s: string)
    ensures forall k :: 0 <= k < WordLength(s) ==> IsWord(s[k])
  {
    if s != "" && IsWord(s[0]) {
      WordsBefore(s[1..]);
      assert forall k :: 0 < k < |s| ==> s[k] == s[1..][k - 1];
    }
  }

  lemma KeyLengthExactly(s: string, n: nat)
    requires n > 0
    ensures KeyLength(s) == n <==> n < |s| && s[n] == ':' && KeyText(s[..n])
  {
    WordsBefore(s);
    if n < |s| && s[n] == ':' && KeyText(s[..n]) {
      assert s[..n][0] == s[0];
      assert forall k :: 0 <= k < n ==> s[..n][k] == s[k];
      WordLengthIs(s, n);
    }
  }

  /** After `n` white space characters a key, then a colon. */
  ghost predicate KeyLine(line: Line, n: nat, key: string) {
    && n + |key| < |line| && (forall k :: 0 <= k < n ==> WhiteSpace(line[k]))
    && line[n..n + |key|] == key && KeyText(key) && line[n + |key|] == ':'
  }

  lemma SliceOfRest(s: string, i: nat, j: nat)
    requires i <= j < |s|
    ensures s[1..][i..j] == s[i + 1..j + 1]
  {
  }

  lemma KeyLineShifts(line: Line, n: nat, key: string)
    requires line != ""
    ensures WhiteSpace(line[0]) ==> (KeyLine(line, n + 1, key) <==> KeyLine(line[1..], n, key))
    ensures !WhiteSpace(line[0]) ==> !KeyLine(line, n + 1, key)
    ensures WhiteSpace(line[0]) ==> !KeyLine(line, 0, key)
  {
    if n + 1 + |key| < |line| { SliceOfRest(line, n, n + |key|); }
    if KeyLine(line[1..], n, key) {
      assert forall k :: 0 < k < n + 1 ==> line[k] == line[1..][k - 1];
    }
    if KeyLine(line, n + 1, key) {
      assert forall k :: 0 <= k < n ==> line[1..][k] == line[k + 1];
    }
    if KeyLine(line, 0, key) { assert line[0..|key|][0] == line[0]; }
  }

  /** A line's indentation and key are read exactly when it is a key line. */
  lemma {:induction false} HeadExactlyWhen(line: Line, n: nat, key: string)
    ensures HeadOf(line) == Some(Entry(n, key)) <==> KeyLine(line, n, key)
    decreases |line|
  {
    if line != "" { SpaceIsWhiteSpace(line[0]); }
    if line != "" && IsSpace(line[0]) {
      if n > 0 {
        HeadExactlyWhen(line[1..], n - 1, key);
        KeyLineShifts(line, n - 1, key);
      } else {
        KeyLineShifts(line, 0, key);
      }
    } else {
      PlainHead(line, key);
      if n > 0 && line != "" { KeyLineShifts(line, n - 1, key); }
    }
  }

  lemma PlainHead(line: Line, key: string)
    requires line == "" || !IsSpace(line[0])
    ensures HeadOf(line) == Some(Entry(0, key)) <==> KeyLine(line, 0, key)
    ensures HeadOf(line).Some? ==> HeadOf(line).value.indent == 0
  {
    if key != "" {
      KeyLengthExactly(line, |key|);
      if KeyLength(line) > 0 { assert |line[..KeyLength(line)]| == KeyLength(line); }
      if |key| < |line| { assert line[0..|key|] == line[..|key|]; }
    }
  }

  /** The value is the rest of the line behind the colon, without white space at its ends. */
  lemma {:induction false} ValueExactly(line: Line, n: nat, key: string) returns (before: string, after: string)
    requires KeyLine(line, n, key)
    ensures Stripped(line[n + |key| + 1..], Value(line), before, after)
    decreases n
  {
    SpaceIsWhiteSpace(line[0]);
    if n > 0 {
      KeyLineShifts(line, n - 1, key);
      before, after := ValueExactly(line[1..], n - 1, key);
      assert line[1..][n + |key|..] == line[n + |key| + 1..];
    } else {
      KeyLineShifts(line, 0, key);
      assert line[0..|key|] == line[..|key|];
      KeyLengthExactly(line, |key|);
      before, after := StripExactly(line[|key| + 1..]);
    }
  }

  type Comments = map<string, string>

  function Dotted(keys: seq<string>): string {
    if keys == [] then ""
    else if |keys| == 1 then keys[0]
    else Dotted(keys[..|keys| - 1]) + "." + keys[|keys| - 1]
  }

  lemma DottedMore(keys: seq<string>, key: string)
    ensures Dotted(keys + [key]) == if keys == [] then key else Dotted(keys) + "." + key
  {
    assert (keys + [key])[..|keys|] == keys;
  }

  lemma TwoDots(a: string, b: string, c: string, dot: string)
    ensures a + dot + b + dot + c == a + dot + (b + dot + c)
  {
  }

  /** A path is its keys with a dot between any two. */
  lemma {:induction false} DottedConcat(a: seq<string>, b: seq<string>)
    requires a != [] && b != []
    ensures Dotted(a + b) == Dotted(a) + "." + Dotted(b) && Dotted([a[0]]) == a[0]
    decreases |b|
  {
    var n := |b| - 1;
    var front, last := b[..n], b[n];
    DottedMore([], a[0]);
    DottedMore(front, last);
    DottedMore(a + front, last);
    assert a + b == (a + front) + [last] && b == front + [last] && [] + [a[0]] == [a[0]];
    if front == [] {
      assert a + front == a;
    } else {
      DottedConcat(a, front);
      TwoDots(Dotted(a), Dotted(front), last, ".");
    }
  }

  function Lookup(comments: Comments, name: string): string {
    if name in comments then comments[name] else ""
  }

  /** The comment of a path, one for this very value first; empty when there is none. */
  function CommentFor(comments: Comments, path: seq<string>, value: string): string {
    var specific := Lookup(comments, Dotted(path) + ": " + value);
    if specific != "" then specific else Lookup(comments, Dotted(path))
  }

  function Mark(line: Line, comment: string): Line {
    if comment != "" && '#' !in line then line + "  " + comment else line
  }

  /** A line has a path exactly when it has a key. */
  lemma PathIffKey(lines: seq<Line>, k: nat)
    requires k < |lines|
    ensures Paths([], Heads(lines))[k].Some? <==> HeadOf(lines[k]).Some?
  {
    PathsAt([], Heads(lines), k);
    HeadsAt(lines, k);
  }

  function Annotated(line: Line, path: Option<seq<string>>, comments: Comments): Line {
    if path.None? then line else Mark(line, CommentFor(comments, path.value, Value(line)))
  }

  function MarkAll(lines: seq<Line>, paths: seq<Option<seq<string>>>, comments: Comments): (out: seq<Line>)
    requires |paths| == |lines|
    ensures |out| == |lines|
  {
    if lines == [] then []
    else
      var n := |lines| - 1;
      MarkAll(lines[..n], paths[..n], comments) + [Annotated(lines[n], paths[n], comments)]
  }

  lemma {:induction false} MarkAllAt(lines: seq<Line>, paths: seq<Option<seq<string>>>, comments: Comments, k: nat)
    requires |paths| == |lines| && k < |lines|
    ensures MarkAll(lines, paths, comments)[k] == Annotated(lines[k], paths[k], comments)
  {
    var n := |lines| - 1;
    if k < n { MarkAllAt(lines[..n], paths[..n], comments, k); }
  }

  /** Every key line with the comment of its path. */
  function Annotate(lines: seq<Line>, comments: Comments): (out: seq<Line>)
    ensures |out| == |lines|
  {
    MarkAll(lines, Paths([], Heads(lines)), comments)
  }

  /** A key line gets two blanks and a comment at its end, the one for its path with this
      very value if there is one and otherwise the one for its path; it stays as it is
      without a comment, or with a number sign of its own, and so does any other line. */
  lemma AnnotatedExactly(lines: seq<Line>, comments: Comments, k: nat)
    requires k < |lines|
    ensures var line, out, path := lines[k], Annotate(lines, comments)[k], Paths([], Heads(lines))[k];
      if HeadOf(line).None? then out == line
      else path.Some? &&
           var exact, name := Dotted(path.value) + ": " + Value(line), Dotted(path.value);
           if '#' in line then out == line
           else if exact in comments && comments[exact] != "" then out == line + "  " + comments[exact]
           else if name in comments && comments[name] != "" then out == line + "  " + comments[name]
           else out == line
  {
    PathIffKey(lines, k);
    MarkAllAt(lines, Paths([], Heads(lines)), comments, k);
  }

  // ---- Nested mappings and their printed form

  /** Sibling entries: a key with its value text and children (printed `step` deeper), or a
      line without a key such as a list item. */
  datatype Block =
    | Nothing
    | Text(line: Line, rest: Block)
    | Field(key: string, value: string, step: nat, children: Block, rest: Block)

  ghost predicate Printable(b: Block) {
    match b
    case Nothing => true
    case Text(line, rest) => HeadOf(line).None? && Printable(rest)
    case Field(key, _, step, children, rest) =>
      key != "" && IsLetter(key[0]) && (forall c :: c in key ==> IsWord(c))
      && step > 0 && Printable(children) && Printable(rest)
  }

  function OutlineOf(b: Block): Outline<string> {
    match b
    case Nothing => End
    case Text(_, rest) => Plain(OutlineOf(rest))
    case Field(key, _, step, children, rest) => Node(key, step, OutlineOf(children), OutlineOf(rest))
  }

  function Spaces(n: nat): string {
    if n == 0 then "" else " " + Spaces(n - 1)
  }

  function Header(key: string, value: string, indent: nat): Line {
    Spaces(indent) + (key + ":" + value)
  }

  function Print(b: Block, indent: nat): seq<Line> {
    match b
    case Nothing => []
    case Text(line, rest) => [line] + Print(rest, indent)
    case Field(key, value, step, children, rest) =>
      [Header(key, value, indent)] + (Print(children, indent + step) + Print(rest, indent))
  }

  lemma {:induction false} WordLengthOf(key: string, rest: string)
    requires (forall c :: c in key ==> IsWord(c)) && (rest == "" || !IsWord(rest[0]))
    ensures WordLength(key + rest) == |key|
  {
    if key == "" {
      assert key + rest == rest;
    } else {
      assert (key + rest)[1..] == key[1..] + rest;
      WordLengthOf(key[1..], rest);
    }
  }

  lemma HeaderSplits(key: string, value: string)
    requires key != "" && IsLetter(key[0]) && forall c :: c in key ==> IsWord(c)
    ensures HeadOf(key + ":" + value) == Some(Entry(0, key)) && Value(key + ":" + value) == Strip(value)
  {
    var s := key + ":" + value;
    assert s == key + (":" + value);
    WordLengthOf(key, ":" + value);
    assert s[0] == key[0] && s[|key|] == ':';
    assert s[..|key|] == key && s[|key| + 1..] == value;
  }

  lemma OneBlankMore(line: Line)
    ensures Value(" " + line) == Value(line)
    ensures HeadOf(" " + line) == Indented(HeadOf(line), 1)
  {
    assert (" " + line)[1..] == line;
  }

  function Indented(head: Head, n: nat): Head {
    if head.None? then None else Some(Entry(head.value.indent + n, head.value.key))
  }

  /** Blanks ahead of a line only indent it. */
  lemma {:induction false} SpacesHead(line: Line, n: nat)
    ensures HeadOf(Spaces(n) + line) == Indented(HeadOf(line), n) && Value(Spaces(n) + line) == Value(line)
  {
    if n == 0 {
      assert "" + line == line;
    } else {
      SpacesHead(line, n - 1);
      OneBlankMore(Spaces(n - 1) + line);
      ConcatAssociates(" ", Spaces(n - 1), line);
    }
  }

  lemma HeaderHead(key: string, value: string, indent: nat)
    requires key != "" && IsLetter(key[0]) && forall c :: c in key ==> IsWord(c)
    ensures HeadOf(Header(key, value, indent)) == Some(Entry(indent, key))
    ensures Value(Header(key, value, indent)) == Strip(value)
  {
    HeaderSplits(key, value);
    SpacesHead(key + ":" + value, indent);
  }

  lemma {:induction false} HeadsConcat(a: seq<Line>, b: seq<Line>)
    ensures Heads(a + b) == Heads(a) + Heads(b)
  {
    if a == [] {
      assert a + b == b;
    } else {
      assert (a + b)[1..] == a[1..] + b;
      HeadsConcat(a[1..], b);
    }
  }

  lemma FieldHeads(header: Line, below: seq<Line>, after: seq<Line>)
    ensures Heads([header] + (below + after)) == [HeadOf(header)] + (Heads(below) + Heads(after))
  {
    var all := [header] + (below + after);
    assert all[0] == header && all[1..] == below + after;
    HeadsConcat(below, after);
  }

  lemma LineHeads(line: Line, after: seq<Line>)
    ensures Heads([line] + after) == [HeadOf(line)] + Heads(after)
  {
    assert ([line] + after)[1..] == after;
  }

  lemma {:induction false} PrintedHeads(b: Block, indent: nat)
    requires Printable(b)
    ensures Heads(Print(b, indent)) == Lines(OutlineOf(b), indent) && Deepening(OutlineOf(b))
    decreases b
  {
    match b
    case Nothing =>
    case Text(line, rest) =>
      PrintedHeads(rest, indent);
      LineHeads(line, Print(rest, indent));
    case Field(key, value, step, children, rest) =>
      assert HeadOf(Header(key, value, indent)) == Some(Entry(indent, key)) by { HeaderHead(key, value, indent); }
      PrintedHeads(children, indent + step);
      PrintedHeads(rest, indent);
      FieldHeads(Header(key, value, indent), Print(children, indent + step), Print(rest, indent));
  }

  /** A printed document is annotated key by key with the comment of the root-to-key path. */
  lemma PrintedKeysGetTheirComments(b: Block, comments: Comments)
    requires Printable(b)
    ensures |PreOrder(OutlineOf(b), [])| == |Print(b, 0)|
    ensures Annotate(Print(b, 0), comments) == MarkAll(Print(b, 0), PreOrder(OutlineOf(b), []), comments)
  {
    PrintedHeads(b, 0);
    EveryKeyGetsItsPath(OutlineOf(b));
  }

  // ---- Comments are only appended

  /** Every comment starts with a number sign. */
  predicate Hashed(comments: Comments) {
    forall k :: k in comments ==> comments[k] == "" || comments[k][0] == '#'
  }

  function HashAt(line: Line): (n: nat)
    ensures n <= |line| && (n < |line| <==> '#' in line)
    ensures '#' !in line[..n] && (n < |line| ==> line[n] == '#')
  {
    if line == "" || line[0] == '#' then 0 else 1 + HashAt(line[1..])
  }

  /** Drops an appended comment with the two blanks before it. */
  function Uncomment(line: Line): Line {
    var n := HashAt(line);
    if n == |line| then line else if n < 2 then "" else line[..n - 2]
  }

  lemma {:induction false} HashAfter(line: Line, comment: string)
    requires '#' !in line && comment != "" && comment[0] == '#'
    ensures HashAt(line + comment) == |line|
  {
    if line == "" {
      assert line + comment == comment;
    } else {
      assert (line + comment)[1..] == line[1..] + comment;
      HashAfter(line[1..], comment);
    }
  }

  lemma UncommentMarked(line: Line, comment: string)
    requires comment == "" || comment[0] == '#'
    ensures Uncomment(Mark(line, comment)) == line <==> '#' !in line
  {
    if comment != "" && '#' !in line {
      assert line + "  " + comment == (line + "  ") + comment;
      HashAfter(line + "  ", comment);
    }
  }

  lemma CommentIsHashed(comments: Comments, path: seq<string>, value: string)
    requires Hashed(comments)
    ensures var c := CommentFor(comments, path, value); c == "" || c[0] == '#'
  {
  }

  /** Removing comments after annotating restores the lines exactly when none of them had a
      number sign of its own. */
  lemma UncommentRestoresExactlyWhen(lines: seq<Line>, comments: Comments, k: nat)
    requires Hashed(comments) && k < |lines|
    ensures Uncomment(Annotate(lines, comments)[k]) == lines[k] <==> '#' !in lines[k]
    ensures '#' in lines[k] ==> Annotate(lines, comments)[k] == lines[k]
  {
    var path := Paths([], Heads(lines))[k];
    MarkAllAt(lines, Paths([], Heads(lines)), comments, k);
    if path.Some? {
      CommentIsHashed(comments, path.value, Value(lines[k]));
      UncommentMarked(lines[k], CommentFor(comments, path.value, Value(lines[k])));
    } else {
      UncommentMarked(lines[k], "");
    }
  }

  lemma {:induction false} WordAppend(s: string, suffix: string)
    requires WordLength(s) < |s|
    ensures WordLength(s + suffix) == WordLength(s)
  {
    assert (s + suffix)[1..] == s[1..] + suffix;
    if IsWord(s[0]) { WordAppend(s[1..], suffix); }
  }

  lemma {:induction false} AppendKeepsHead(line: Line, suffix: string)
    requires HeadOf(line).Some?
    ensures HeadOf(line + suffix) == HeadOf(line)
  {
    var more := line + suffix;
    if line != "" && IsSpace(line[0]) {
      AppendKeepsHead(line[1..], suffix);
      assert more[1..] == line[1..] + suffix;
    } else {
      var n := KeyLength(line);
      WordAppend(line, suffix);
      assert more[n] == line[n] && more[0] == line[0] && more[..n] == line[..n];
    }
  }

  lemma AnnotatedKeepsHead(line: Line, path: Option<seq<string>>, comments: Comments)
    requires path.Some? ==> HeadOf(line).Some?
    ensures HeadOf(Annotated(line, path, comments)) == HeadOf(line)
  {
    if path.Some? {
      var c := CommentFor(comments, path.value, Value(line));
      assert line + "  " + c == line + ("  " + c);
      AppendKeepsHead(line, "  " + c);
    }
  }

  lemma AnnotatedAgain(line: Line, path: Option<seq<string>>, comments: Comments)
    requires Hashed(comments)
    ensures var once := Annotated(line, path, comments); Annotated(once, path, comments) == once
  {
    if path.Some? {
      var c := CommentFor(comments, path.value, Value(line));
      CommentIsHashed(comments, path.value, Value(line));
      if c != "" && '#' !in line {
        assert (line + "  " + c)[|line| + 2] == '#';
      }
    }
  }

  /** Annotating annotated lines changes nothing more. */
  lemma AnnotateIsIdempotent(lines: seq<Line>, comments: Comments)
    requires Hashed(comments)
    ensures Annotate(Annotate(lines, comments), comments) == Annotate(lines, comments)
  {
    var once, paths := Annotate(lines, comments), Paths([], Heads(lines));
    forall k | 0 <= k < |lines| ensures Heads(once)[k] == Heads(lines)[k] {
      PathIffKey(lines, k);
      MarkAllAt(lines, paths, comments, k);
      AnnotatedKeepsHead(lines[k], paths[k], comments);
      HeadsAt(once, k);
      HeadsAt(lines, k);
    }
    assert Heads(once) == Heads(lines);
    forall k | 0 <= k < |lines| ensures Annotate(once, comments)[k] == once[k] {
      MarkAllAt(lines, paths, comments, k);
      MarkAllAt(once, paths, comments, k);
      AnnotatedAgain(lines[k], paths[k], comments);
    }
  }

  // ---- The loop over the lines

  method CommentLine(stack: seq<Entry<string>>, line: Line, comments: Comments)
    returns (stack': seq<Entry<string>>, line': Line)
    ensures stack' == NextStack(stack, HeadOf(line))
    ensures line' == Annotated(line, PathOf(stack, HeadOf(line)), comments)
  {
    var head := HeadOf(line);
    if head.None? { return stack, line; }
    var open := PopOpen(stack, head.value.indent);
    stack' := open + [head.value];
    var comment := CommentFor(comments, Keys(stack'), Value(line));
    line' := if comment != "" && '#' !in line then line + "  " + comment else line;
  }

  /** The stack after the first `k` lines, and those lines annotated. */
  function StackAt(lines: seq<Line>, k: nat): seq<Entry<string>>
    requires k <= |lines|
  {
    StackAfter([], Heads(lines)[..k])
  }

  function AnnotatedUpTo(lines: seq<Line>, k: nat, comments: Comments): seq<Line>
    requires k <= |lines|
  {
    MarkAll(lines[..k], Paths([], Heads(lines))[..k], comments)
  }

  lemma LineStep(lines: seq<Line>, k: nat, comments: Comments)
    requires k < |lines|
    ensures StackAt(lines, k + 1) == NextStack(StackAt(lines, k), HeadOf(lines[k]))
    ensures AnnotatedUpTo(lines, k + 1, comments)
            == AnnotatedUpTo(lines, k, comments)
               + [Annotated(lines[k], PathOf(StackAt(lines, k), HeadOf(lines[k])), comments)]
  {
    var paths := Paths([], Heads(lines));
    PathsAt([], Heads(lines), k);
    HeadsAt(lines, k);
    assert lines[..k + 1][..k] == lines[..k] && paths[..k + 1][..k] == paths[..k];
  }

  lemma AllLines(lines: seq<Line>, comments: Comments)
    ensures StackAt(lines, 0) == [] && AnnotatedUpTo(lines, 0, comments) == []
    ensures AnnotatedUpTo(lines, |lines|, comments) == Annotate(lines, comments)
  {
    var paths := Paths([], Heads(lines));
    assert lines[..|lines|] == lines && paths[..|lines|] == paths;
  }

  method AddComments(lines: seq<Line>, comments: Comments) returns (out: seq<Line>)
    ensures out == Annotate(lines, comments)
  {
    AllLines(lines, comments);
    out := [];
    var stack: seq<Entry<string>> := [];
    for k := 0 to |lines|
      invariant stack == StackAt(lines, k) && out == AnnotatedUpTo(lines, k, comments)
    {
      LineStep(lines, k, comments);
      var line;
      stack, line := CommentLine(stack, lines[k], comments);
      out := out + [line];
    }
  }
}
