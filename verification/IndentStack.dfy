/** Recovering the path of each entry of a nested mapping from the indentation of its lines
    alone, with a stack of open entries. Lines without a key are `None`. */
module IndentStack {
  import opened Collections

  /** What a key line is to the stack. */
  datatype Entry<K> = Entry(indent: nat, key: K)

  function Keys<K>(stack: seq<Entry<K>>): seq<K> {
    if stack == [] then [] else Keys(stack[..|stack| - 1]) + [stack[|stack| - 1].key]
  }

  /** Closes every entry that is not shallower than `indent`. */
  function Pop<K>(stack: seq<Entry<K>>, indent: nat): seq<Entry<K>> {
    if stack == [] || stack[|stack| - 1].indent < indent then stack
    else Pop(stack[..|stack| - 1], indent)
  }

  function NextStack<K>(stack: seq<Entry<K>>, head: Option<Entry<K>>): seq<Entry<K>> {
    if head.None? then stack else Pop(stack, head.value.indent) + [head.value]
  }

  /** The path of a line: the keys then open, its own last. */
  function PathOf<K>(stack: seq<Entry<K>>, head: Option<Entry<K>>): Option<seq<K>> {
    if head.None? then None else Some(Keys(NextStack(stack, head)))
  }

  function Paths<K>(stack: seq<Entry<K>>, heads: seq<Option<Entry<K>>>): (paths: seq<Option<seq<K>>>)
    ensures |paths| == |heads|
    decreases |heads|
  {
    if heads == [] then [] else [PathOf(stack, heads[0])] + Paths(NextStack(stack, heads[0]), heads[1..])
  }

  /** The stack those lines leave behind. */
  function StackAfter<K>(stack: seq<Entry<K>>, heads: seq<Option<Entry<K>>>): seq<Entry<K>>
    decreases |heads|
  {
    if heads == [] then stack else StackAfter(NextStack(stack, heads[0]), heads[1..])
  }

  lemma {:induction false} PathsConcat<K>(stack: seq<Entry<K>>, a: seq<Option<Entry<K>>>, b: seq<Option<Entry<K>>>)
    ensures Paths(stack, a + b) == Paths(stack, a) + Paths(StackAfter(stack, a), b)
    ensures StackAfter(stack, a + b) == StackAfter(StackAfter(stack, a), b)
    decreases |a|
  {
    if a == [] {
      assert a + b == b;
    } else {
      assert (a + b)[1..] == a[1..] + b;
      PathsConcat(NextStack(stack, a[0]), a[1..], b);
    }
  }

  lemma StackAfterFirst<K>(stack: seq<Entry<K>>, heads: seq<Option<Entry<K>>>, k: nat)
    requires 0 < k <= |heads|
    ensures StackAfter(stack, heads[..k]) == StackAfter(NextStack(stack, heads[0]), heads[1..][..k - 1])
  {
    assert heads[..k][1..] == heads[1..][..k - 1];
  }

  lemma {:induction false} PathsAt<K>(stack: seq<Entry<K>>, heads: seq<Option<Entry<K>>>, k: nat)
    requires k < |heads|
    ensures Paths(stack, heads)[k] == PathOf(StackAfter(stack, heads[..k]), heads[k])
    ensures StackAfter(stack, heads[..k + 1]) == NextStack(StackAfter(stack, heads[..k]), heads[k])
    decreases k
  {
    if k == 0 {
      OneStack(stack, heads[0]);
      assert heads[..1] == [heads[0]] && heads[..0] == [];
    } else {
      var rest := heads[1..];
      PathsAt(NextStack(stack, heads[0]), rest, k - 1);
      StackAfterFirst(stack, heads, k);
      StackAfterFirst(stack, heads, k + 1);
    }
  }

  lemma OneStack<K>(stack: seq<Entry<K>>, head: Option<Entry<K>>)
    ensures StackAfter(stack, [head]) == NextStack(stack, head)
  {
    assert [head][1..] == [];
  }

  method PopOpen<K>(stack: seq<Entry<K>>, indent: nat) returns (open: seq<Entry<K>>)
    ensures open == Pop(stack, indent)
  {
    open := stack;
    while open != [] && open[|open| - 1].indent >= indent
      invariant Pop(open, indent) == Pop(stack, indent)
      decreases |open|
    {
      open := open[..|open| - 1];
    }
  }

  // ---- Nested mappings

  /** Sibling entries in order: a key with its children, `step` deeper, or a line without a
      key such as a list item. */
  datatype Outline<K> =
    | End
    | Plain(rest: Outline<K>)
    | Node(key: K, step: nat, children: Outline<K>, rest: Outline<K>)

  /** Children are indented more than their parent. */
  predicate Deepening<K>(o: Outline<K>) {
    match o
    case End => true
    case Plain(rest) => Deepening(rest)
    case Node(_, step, children, rest) => step > 0 && Deepening(children) && Deepening(rest)
  }

  /** The lines of an outline printed in pre-order at an indentation. */
  function Lines<K>(o: Outline<K>, indent: nat): seq<Option<Entry<K>>> {
    match o
    case End => []
    case Plain(rest) => [None] + Lines(rest, indent)
    case Node(key, step, children, rest) =>
      [Some(Entry(indent, key))] + (Lines(children, indent + step) + Lines(rest, indent))
  }

  /** For each of those lines, its path from the root. */
  function PreOrder<K>(o: Outline<K>, path: seq<K>): seq<Option<seq<K>>> {
    match o
    case End => []
    case Plain(rest) => [None] + PreOrder(rest, path)
    case Node(key, _, children, rest) =>
      [Some(path + [key])] + (PreOrder(children, path + [key]) + PreOrder(rest, path))
  }

  ghost predicate Shallower<K>(stack: seq<Entry<K>>, indent: nat) {
    forall k :: 0 <= k < |stack| ==> stack[k].indent < indent
  }

  ghost predicate NotShallower<K>(stack: seq<Entry<K>>, indent: nat) {
    forall k :: 0 <= k < |stack| ==> stack[k].indent >= indent
  }

  lemma {:induction false} PopLeavesBase<K>(base: seq<Entry<K>>, junk: seq<Entry<K>>, indent: nat)
    requires Shallower(base, indent) && NotShallower(junk, indent)
    ensures Pop(base + junk, indent) == base
    decreases |junk|
  {
    if junk == [] {
      assert base + junk == base;
    } else {
      var n := |junk| - 1;
      assert (base + junk)[..|base + junk| - 1] == base + junk[..n];
      PopLeavesBase(base, junk[..n], indent);
    }
  }

  lemma KeysAppend<K>(stack: seq<Entry<K>>, e: Entry<K>)
    ensures Keys(stack + [e]) == Keys(stack) + [e.key]
  {
    assert (stack + [e])[..|stack|] == stack;
  }

  lemma KeyThenMore<K>(stack: seq<Entry<K>>, base: seq<Entry<K>>, own: Entry<K>,
                       below: seq<Option<Entry<K>>>, after: seq<Option<Entry<K>>>)
    requires Pop(stack, own.indent) == base
    ensures Paths(stack, [Some(own)] + (below + after))
      == [Some(Keys(base) + [own.key])] + (Paths(base + [own], below) + Paths(StackAfter(base + [own], below), after))
    ensures StackAfter(stack, [Some(own)] + (below + after)) == StackAfter(StackAfter(base + [own], below), after)
  {
    var all := [Some(own)] + (below + after);
    assert all[0] == Some(own) && all[1..] == below + after;
    PathsConcat(base + [own], below, after);
    KeysAppend(base, own);
  }

  /** A line without a key has no path and leaves the stack alone. */
  lemma PlainLine<K>(stack: seq<Entry<K>>, after: seq<Option<Entry<K>>>)
    ensures StackAfter(stack, [None] + after) == StackAfter(stack, after)
    ensures Paths(stack, [None] + after) == [None] + Paths(stack, after)
  {
    assert ([None] + after)[1..] == after;
  }

  /** An outline printed below the entries of `base` leaves on the stack, above those, only
      entries of its own. */
  lemma {:induction false} BaseStays<K>(o: Outline<K>, indent: nat, base: seq<Entry<K>>, junk: seq<Entry<K>>)
    returns (left: seq<Entry<K>>)
    requires Deepening(o) && Shallower(base, indent) && NotShallower(junk, indent)
    ensures NotShallower(left, indent) && StackAfter(base + junk, Lines(o, indent)) == base + left
    decreases o, 0
  {
    match o
    case End => left := junk;
    case Plain(rest) =>
      left := BaseStays(rest, indent, base, junk);
      PlainLine(base + junk, Lines(rest, indent));
    case Node(key, step, children, rest) =>
      var own := Entry(indent, key);
      var inner := BelowOwn(children, indent, step, base, own);
      left := BaseStays(rest, indent, base, [own] + inner);
      PopLeavesBase(base, junk, indent);
      KeyThenMore(base + junk, base, own, Lines(children, indent + step), Lines(rest, indent));
  }

  lemma {:induction false} BelowOwn<K>(children: Outline<K>, indent: nat, step: nat, base: seq<Entry<K>>, own: Entry<K>)
    returns (inner: seq<Entry<K>>)
    requires Deepening(children) && step > 0 && Shallower(base, indent) && own.indent == indent
    ensures NotShallower([own] + inner, indent)
    ensures StackAfter(base + [own], Lines(children, indent + step)) == base + ([own] + inner)
    decreases children, 1
  {
    DeeperBase(base, own, indent, step);
    inner := BaseStays(children, indent + step, base + [own], []);
    assert base + [own] + [] == base + [own];
    ConcatAssociates(base, [own], inner);
    DeeperLeft(own, inner, indent, step);
  }

  lemma DeeperBase<K>(base: seq<Entry<K>>, own: Entry<K>, indent: nat, step: nat)
    requires step > 0 && Shallower(base, indent) && own.indent == indent
    ensures Shallower(base + [own], indent + step)
  {
  }

  lemma DeeperLeft<K>(own: Entry<K>, inner: seq<Entry<K>>, indent: nat, step: nat)
    requires own.indent == indent && NotShallower(inner, indent + step)
    ensures NotShallower([own] + inner, indent)
  {
  }

  /** An outline printed below the keys of `base` gives every key its own path. */
  lemma {:induction false} PathsRecovered<K>(o: Outline<K>, indent: nat, base: seq<Entry<K>>, junk: seq<Entry<K>>)
    requires Deepening(o) && Shallower(base, indent) && NotShallower(junk, indent)
    ensures Paths(base + junk, Lines(o, indent)) == PreOrder(o, Keys(base))
    decreases o, 1
  {
    match o
    case End =>
    case Plain(rest) =>
      PathsRecovered(rest, indent, base, junk);
      PlainLine(base + junk, Lines(rest, indent));
    case Node(key, step, children, rest) => NodePaths(key, step, children, rest, indent, base, junk);
  }

  lemma {:induction false} NodePaths<K>(key: K, step: nat, children: Outline<K>, rest: Outline<K>, indent: nat,
                                        base: seq<Entry<K>>, junk: seq<Entry<K>>)
    requires Deepening(children) && Deepening(rest) && step > 0
    requires Shallower(base, indent) && NotShallower(junk, indent)
    ensures Paths(base + junk, [Some(Entry(indent, key))] + (Lines(children, indent + step) + Lines(rest, indent)))
      == [Some(Keys(base) + [key])] + (PreOrder(children, Keys(base) + [key]) + PreOrder(rest, Keys(base)))
    decreases Node(key, step, children, rest), 0
  {
    var own := Entry(indent, key);
    PathsBelow(children, indent, step, base, own);
    var inner := BelowOwn(children, indent, step, base, own);
    PathsRecovered(rest, indent, base, [own] + inner);
    PopLeavesBase(base, junk, indent);
    KeyThenMore(base + junk, base, own, Lines(children, indent + step), Lines(rest, indent));
  }

  lemma {:induction false} PathsBelow<K>(children: Outline<K>, indent: nat, step: nat, base: seq<Entry<K>>,
                                         own: Entry<K>)
    requires Deepening(children) && step > 0 && Shallower(base, indent) && own.indent == indent
    ensures Paths(base + [own], Lines(children, indent + step)) == PreOrder(children, Keys(base) + [own.key])
    decreases children, 2
  {
    KeysAppend(base, own);
    DeeperBase(base, own, indent, step);
    assert base + [own] + [] == base + [own];
    PathsRecovered(children, indent + step, base + [own], []);
  }

  /** For every nested mapping the stack gives each key line exactly its root-to-key path. */
  lemma EveryKeyGetsItsPath<K>(o: Outline<K>)
    requires Deepening(o)
    ensures Paths([], Lines(o, 0)) == PreOrder(o, [])
  {
    PathsRecovered(o, 0, [], []);
  }
}
