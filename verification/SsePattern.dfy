/** What the extraction pattern finds, byte by byte: `data:`, white space, an opening brace,
    at least one byte other than a newline, and the last closing brace of that line. */
module SsePattern {
  import opened Collections
  import opened ResponseStream
  import opened SseScanner

  /** Space, tab, newline, vertical tab, form feed and carriage return. */
  const WHITE_SPACE: set<int> := {32, 9, 10, 11, 12, 13}

  /** The bytes of `data:`. */
  const LABEL: Bytes := [100, 97, 116, 97, 58]

  /** An event's label stands at `i` and its document from `start` to `end`. */
  ghost predicate EventAt(s: Bytes, i: nat, start: nat, end: nat) {
    && i + 5 <= start && start + 3 <= end <= |s|
    && s[i..i + 5] == LABEL
    && (forall k :: i + 5 <= k < start ==> s[k] in WHITE_SPACE)
    && s[start] == 123 && s[end - 1] == 125
    && (forall k :: start <= k < end ==> s[k] != 10)
    && NoBraceOnLine(s, end)
  }

  /** From `end` on, a newline comes before any further closing brace. */
  ghost predicate NoBraceOnLine(s: Bytes, end: nat) {
    forall k :: end <= k < |s| && s[k] == 125 ==> exists j :: end <= j < k && s[j] == 10
  }

  lemma SpaceIsWhite(b: Byte)
    ensures IsSpace(b) <==> b in WHITE_SPACE
  {
  }

  lemma LabelAt(s: Bytes, i: nat)
    requires i + 5 <= |s|
    ensures s[i..i + 5] == LABEL <==> DataAt(s, i)
  {
    var t := s[i..i + 5];
    assert t[0] == s[i] && t[1] == s[i + 1] && t[2] == s[i + 2] && t[3] == s[i + 3] && t[4] == s[i + 4];
  }

  /** White space is skipped up to the first byte that is none. */
  lemma {:induction false} SkipsTo(s: Bytes, i: nat, j: nat)
    requires i <= j < |s| && !IsSpace(s[j]) && forall k :: i <= k < j ==> IsSpace(s[k])
    ensures SkipSpace(s, i) == j
    decreases j - i
  {
    if i < j { SkipsTo(s, i + 1, j); }
  }

  /** A closing brace with none after it on its line is the last one of the line. */
  lemma {:induction false} LastCloseThere(s: Bytes, lo: nat, hi: nat, k: nat)
    requires lo <= k < hi <= |s| && s[k] == CLOSE && forall m :: k < m < hi ==> s[m] != CLOSE
    ensures LastClose(s, lo, hi) == Some(k)
    decreases hi
  {
    if k < hi - 1 { LastCloseThere(s, lo, hi - 1, k); }
  }

  lemma EventIsMatch(s: Bytes, i: nat, start: nat, end: nat)
    requires EventAt(s, i, start, end)
    ensures MatchAt(s, i) == Some(Hit(start, end))
  {
    LabelAt(s, i);
    forall k | i + 5 <= k < start ensures IsSpace(s[k]) { SpaceIsWhite(s[k]); }
    SkipsTo(s, i + 5, start);
    var n := LineEnd(s, start + 1);
    LineEndsThere(s, start + 1);
    assert end <= n;
    forall m | end - 1 < m < n ensures s[m] != CLOSE {
      assert forall j :: end <= j < m ==> s[j] != 10;
    }
    LastCloseThere(s, start + 2, n, end - 1);
  }

  lemma MatchIsEvent(s: Bytes, i: nat)
    requires MatchAt(s, i).Some?
    ensures EventAt(s, i, MatchAt(s, i).value.json, MatchAt(s, i).value.end)
  {
    var h := MatchAt(s, i).value;
    LabelAt(s, i);
    SkippedIsSpace(s, i + 5);
    forall k | i + 5 <= k < h.json ensures s[k] in WHITE_SPACE { SpaceIsWhite(s[k]); }
    var n := LineEnd(s, h.json + 1);
    LineEndsThere(s, h.json + 1);
    LastCloseIsLast(s, h.json + 2, n);
    forall k | h.end <= k < |s| && s[k] == 125 ensures exists j :: h.end <= j < k && s[j] == 10 {
      assert k > n && s[n] == 10;
    }
  }

  /** The scanner matches exactly the events. */
  lemma MatchExactlyWhen(s: Bytes, i: nat, start: nat, end: nat)
    ensures MatchAt(s, i) == Some(Hit(start, end)) <==> EventAt(s, i, start, end)
  {
    if MatchAt(s, i) == Some(Hit(start, end)) { MatchIsEvent(s, i); }
    if EventAt(s, i, start, end) { EventIsMatch(s, i, start, end); }
  }

  /** No event starts from `from` up to `to`. */
  ghost predicate NoEvent(s: Bytes, from: nat, to: nat) {
    forall i: nat, start: nat, end: nat :: from <= i < to ==> !EventAt(s, i, start, end)
  }

  lemma {:induction false} NothingScanned(s: Bytes, from: nat, to: nat)
    requires from <= to <= |s| && NoEvent(s, from, to)
    ensures Scan(s, from) == Scan(s, to)
    decreases |s| - from
  {
    if from < to {
      if MatchAt(s, from).Some? {
        MatchIsEvent(s, from);
        assert false;
      }
      NothingScanned(s, from + 1, to);
    }
  }

  /** Without an event there is no document; otherwise the documents are that of the first
      event, and then those of the bytes behind it. */
  lemma DocsFromFirstEvent(s: Bytes, i: nat, start: nat, end: nat)
    ensures NoEvent(s, 0, |s|) ==> Docs(s) == []
    ensures NoEvent(s, 0, i) && EventAt(s, i, start, end) ==> Docs(s) == [s[start..end]] + Docs(s[end..])
  {
    if NoEvent(s, 0, |s|) { NothingScanned(s, 0, |s|); }
    if NoEvent(s, 0, i) && EventAt(s, i, start, end) {
      NothingScanned(s, 0, i);
      EventIsMatch(s, i, start, end);
      DocsDrop(s, end);
    }
  }

  /** Every document found stands behind a label and white space. */
  lemma {:induction false} FoundStandsInEvent(s: Bytes, from: nat, doc: Bytes)
    requires from <= |s| && doc in Scan(s, from)
    ensures exists i: nat, start: nat, end: nat :: EventAt(s, i, start, end) && doc == s[start..end]
    decreases |s| - from
  {
    match MatchAt(s, from)
    case None => FoundStandsInEvent(s, from + 1, doc);
    case Some(h) =>
      if doc == s[h.json..h.end] {
        MatchIsEvent(s, from);
      } else {
        FoundStandsInEvent(s, h.end, doc);
      }
  }

  /** An event as an endpoint writes it. */
  function Line(space: Bytes, body: Bytes): Bytes {
    [100, 97, 116, 97, 58] + space + [123] + body + [125]
  }

  lemma LineIsEvent(space: Bytes, body: Bytes, rest: Bytes)
    requires (forall b :: b in space ==> b in WHITE_SPACE) && body != [] && 10 !in body
    requires NoBraceOnLine(rest, 0)
    ensures var s, start, end := Line(space, body) + rest, 5 + |space|, 7 + |space| + |body|;
      && EventAt(s, 0, start, end) && s[start..end] == [123] + body + [125] && s[end..] == rest
  {
    var s, start, end := Line(space, body) + rest, 5 + |space|, 7 + |space| + |body|;
    assert s[0..5] == LABEL;
    forall k | 5 <= k < start ensures s[k] in WHITE_SPACE { assert s[k] == space[k - 5]; }
    assert s[start..end] == [123] + body + [125];
    forall k | start < k < end - 1 ensures s[k] != 10 { assert s[k] == body[k - start - 1]; }
    forall k | end <= k < |s| && s[k] == 125 ensures exists j :: end <= j < k && s[j] == 10 {
      assert rest[k - end] == 125;
      var j :| 0 <= j < k - end && rest[j] == 10;
      assert s[end + j] == 10;
    }
  }

  /** Whatever white space follows the label, and whatever body is written: the document is
      found whole, and then those of the rest, unless the line goes on to another closing
      brace. */
  lemma WrittenEventIsFound(space: Bytes, body: Bytes, rest: Bytes)
    requires (forall b :: b in space ==> b in {9, 10, 11, 12, 13, 32}) && body != [] && 10 !in body
    requires forall k :: 0 <= k < |rest| && rest[k] == 125 ==> exists j :: 0 <= j < k && rest[j] == 10
    ensures Docs([100, 97, 116, 97, 58] + space + [123] + body + [125] + rest) == [[123] + body + [125]] + Docs(rest)
  {
    LineIsEvent(space, body, rest);
    DocsFromFirstEvent(Line(space, body) + rest, 0, 5 + |space|, 7 + |space| + |body|);
  }
}
