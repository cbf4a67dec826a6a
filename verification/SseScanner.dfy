/** The extraction pattern of the adapters as a scanner: `data:`, any white space, then
    a JSON object that runs to the last closing brace of its line. */
module SseScanner {
  import opened Collections
  import opened ResponseStream

  const NEWLINE: Byte := 10
  const OPEN: Byte := 123
  const CLOSE: Byte := 125

  predicate IsSpace(b: Byte) {
    b == 32 || 9 <= b <= 13
  }

  function SkipSpace(s: Bytes, i: nat): (j: nat)
    requires i <= |s|
    ensures i <= j <= |s|
    decreases |s| - i
  {
    if i < |s| && IsSpace(s[i]) then SkipSpace(s, i + 1) else i
  }

  lemma {:induction false} SkippedIsSpace(s: Bytes, i: nat)
    requires i <= |s|
    ensures forall k :: i <= k < SkipSpace(s, i) ==> IsSpace(s[k])
    decreases |s| - i
  {
    if i < |s| && IsSpace(s[i]) { SkippedIsSpace(s, i + 1); }
  }

  function LineEnd(s: Bytes, i: nat): (e: nat)
    requires i <= |s|
    ensures i <= e <= |s|
    decreases |s| - i
  {
    if i < |s| && s[i] != NEWLINE then LineEnd(s, i + 1) else i
  }

  lemma {:induction false} LineEndsThere(s: Bytes, i: nat)
    requires i <= |s|
    ensures var e := LineEnd(s, i);
      (forall k :: i <= k < e ==> s[k] != NEWLINE) && (e < |s| ==> s[e] == NEWLINE)
    decreases |s| - i
  {
    if i < |s| && s[i] != NEWLINE { LineEndsThere(s, i + 1); }
  }

  function LastClose(s: Bytes, lo: nat, hi: nat): (k: Option<nat>)
    requires hi <= |s|
    ensures k.Some? ==> lo <= k.value < hi && s[k.value] == CLOSE
    decreases hi
  {
    if hi <= lo then None
    else if s[hi - 1] == CLOSE then Some(hi - 1)
    else LastClose(s, lo, hi - 1)
  }

  lemma {:induction false} LastCloseIsLast(s: Bytes, lo: nat, hi: nat)
    requires hi <= |s|
    ensures match LastClose(s, lo, hi)
      case None => forall m :: lo <= m < hi ==> s[m] != CLOSE
      case Some(k) => forall m :: k < m < hi ==> s[m] != CLOSE
    decreases hi
  {
    if lo < hi && s[hi - 1] != CLOSE { LastCloseIsLast(s, lo, hi - 1); }
  }

  /** A match: where its JSON starts and where it ends. */
  datatype Hit = Hit(json: nat, end: nat)

  /** The bytes of `data:` stand at position `i`. */
  predicate DataAt(s: Bytes, i: nat) {
    i + 5 <= |s| && s[i] == 100 && s[i + 1] == 97 && s[i + 2] == 116 && s[i + 3] == 97 && s[i + 4] == 58
  }

  /** The JSON part of a match, from the first byte that is not white space. */
  function JsonAt(s: Bytes, j: nat): (h: Option<Hit>)
    requires j <= |s|
    ensures h.Some? ==> h.value.json == j && j + 3 <= h.value.end <= |s|
  {
    if j == |s| || s[j] != OPEN then None
    else match LastClose(s, j + 2, LineEnd(s, j + 1))
      case None => None
      case Some(k) => Some(Hit(j, k + 1))
  }

  function MatchAt(s: Bytes, i: nat): (h: Option<Hit>)
    ensures h.Some? ==> i + 5 <= h.value.json && h.value.json + 3 <= h.value.end <= |s|
  {
    if DataAt(s, i) then JsonAt(s, SkipSpace(s, i + 5)) else None
  }

  /** Leftmost non-overlapping matches from position `i` on. */
  function Scan(s: Bytes, i: nat): seq<Bytes>
    requires i <= |s|
    decreases |s| - i
  {
    if i == |s| then []
    else match MatchAt(s, i)
      case None => Scan(s, i + 1)
      case Some(h) => [s[h.json..h.end]] + Scan(s, h.end)
  }

  function Docs(s: Bytes): seq<Bytes> {
    Scan(s, 0)
  }

  ghost predicate BlankAt(s: Bytes, p: nat) {
    p + 2 <= |s| && s[p] == NEWLINE && s[p + 1] == NEWLINE
  }

  /** The match at `i` reaches over the blank line at `p` to its JSON. */
  ghost predicate Spans(s: Bytes, i: nat, p: nat) {
    BlankAt(s, p) && i < p && MatchAt(s, i).Some? && p + 2 <= MatchAt(s, i).value.json
  }

  /** No `data:` has its JSON beyond a blank line. */
  ghost predicate NoSpan(s: Bytes) {
    forall i: nat, p: nat :: !Spans(s, i, p)
  }

  // ---- a match seen in a suffix and in a prefix of the bytes ----

  /** `t` is what `s` holds from position `o` on. */
  ghost predicate Suffix(s: Bytes, o: nat, t: Bytes) {
    o + |t| == |s| && forall k :: 0 <= k < |t| ==> t[k] == s[o + k]
  }

  lemma {:induction false} SkipSpaceDrop(s: Bytes, o: nat, t: Bytes, i: nat)
    requires Suffix(s, o, t) && i <= |t|
    ensures SkipSpace(s, o + i) == o + SkipSpace(t, i)
    decreases |t| - i
  {
    if i < |t| && IsSpace(t[i]) { SkipSpaceDrop(s, o, t, i + 1); }
  }

  lemma {:induction false} LineEndDrop(s: Bytes, o: nat, t: Bytes, i: nat)
    requires Suffix(s, o, t) && i <= |t|
    ensures LineEnd(s, o + i) == o + LineEnd(t, i)
    decreases |t| - i
  {
    if i < |t| && t[i] != NEWLINE { LineEndDrop(s, o, t, i + 1); }
  }

  lemma {:induction false} LastCloseDrop(s: Bytes, o: nat, t: Bytes, lo: nat, hi: nat)
    requires Suffix(s, o, t) && hi <= |t|
    ensures LastClose(s, o + lo, o + hi)
            == match LastClose(t, lo, hi) { case None => None case Some(k) => Some(o + k) }
    decreases hi
  {
    if lo < hi && t[hi - 1] != CLOSE { LastCloseDrop(s, o, t, lo, hi - 1); }
  }

  function Shifted(o: nat, h: Option<Hit>): Option<Hit> {
    if h.None? then None else Some(Hit(o + h.value.json, o + h.value.end))
  }

  lemma JsonDrop(s: Bytes, o: nat, t: Bytes, j: nat)
    requires Suffix(s, o, t) && j <= |t|
    ensures JsonAt(s, o + j) == Shifted(o, JsonAt(t, j))
  {
    if j < |t| && t[j] == OPEN {
      LineEndDrop(s, o, t, j + 1);
      LastCloseDrop(s, o, t, j + 2, LineEnd(t, j + 1));
    }
  }

  lemma MatchDrop(s: Bytes, o: nat, t: Bytes, i: nat)
    requires Suffix(s, o, t) && i <= |t|
    ensures MatchAt(s, o + i) == Shifted(o, MatchAt(t, i))
  {
    assert DataAt(s, o + i) <==> DataAt(t, i);
    if DataAt(t, i) {
      SkipSpaceDrop(s, o, t, i + 5);
      JsonDrop(s, o, t, SkipSpace(t, i + 5));
    }
  }

  lemma SuffixSlice(s: Bytes, o: nat, t: Bytes, i: nat, j: nat)
    requires Suffix(s, o, t) && i <= j <= |t|
    ensures t[i..j] == s[o + i..o + j]
  {
  }

  /** Position `i` of `s` and position `j` of `t` see the same documents. */
  ghost predicate ScansAlike(s: Bytes, i: nat, t: Bytes, j: nat) {
    i <= |s| && j <= |t| && Scan(s, i) == Scan(t, j)
  }

  lemma ScanMiss(s: Bytes, i: nat, t: Bytes, j: nat)
    requires i < |s| && j < |t| && MatchAt(s, i).None? && MatchAt(t, j).None?
    requires ScansAlike(s, i + 1, t, j + 1)
    ensures ScansAlike(s, i, t, j)
  {
  }

  lemma ScanHit(s: Bytes, i: nat, t: Bytes, j: nat, from: nat, to: nat, h: Hit)
    requires i < |s| && j < |t| && MatchAt(s, i) == Some(Hit(from, to)) && MatchAt(t, j) == Some(h)
    requires s[from..to] == t[h.json..h.end] && ScansAlike(s, to, t, h.end)
    ensures ScansAlike(s, i, t, j)
  {
  }

  /** A match in the suffix, seen in all bytes, with what follows it scanned alike. */
  lemma ScanDropHit(s: Bytes, o: nat, t: Bytes, i: nat, h: Hit)
    requires Suffix(s, o, t) && i < |t| && MatchAt(t, i) == Some(h) && ScansAlike(s, o + h.end, t, h.end)
    ensures ScansAlike(s, o + i, t, i)
  {
    MatchDrop(s, o, t, i);
    SuffixSlice(s, o, t, h.json, h.end);
    ScanHit(s, o + i, t, i, o + h.json, o + h.end, h);
  }

  lemma ScanDropMiss(s: Bytes, o: nat, t: Bytes, i: nat)
    requires Suffix(s, o, t) && i < |t| && MatchAt(t, i).None? && ScansAlike(s, o + i + 1, t, i + 1)
    ensures ScansAlike(s, o + i, t, i)
  {
    MatchDrop(s, o, t, i);
    ScanMiss(s, o + i, t, i);
  }

  lemma {:induction false} ScanDrop(s: Bytes, o: nat, t: Bytes, i: nat)
    requires Suffix(s, o, t) && i <= |t|
    ensures ScansAlike(s, o + i, t, i)
    decreases |t| - i
  {
    if i < |t| {
      match MatchAt(t, i)
      case None =>
        ScanDrop(s, o, t, i + 1);
        ScanDropMiss(s, o, t, i);
      case Some(h) =>
        ScanDrop(s, o, t, h.end);
        ScanDropHit(s, o, t, i, h);
    }
  }

  lemma DocsDrop(s: Bytes, o: nat)
    requires o <= |s|
    ensures Scan(s, o) == Docs(s[o..])
  {
    ScanDrop(s, o, s[o..], 0);
  }

  lemma {:induction false} SkipSpaceTake(s: Bytes, p: nat, i: nat)
    requires i <= p <= |s|
    ensures SkipSpace(s[..p], i) == if SkipSpace(s, i) <= p then SkipSpace(s, i) else p
    decreases p - i
  {
    if i < p && IsSpace(s[i]) { SkipSpaceTake(s, p, i + 1); }
  }

  lemma {:induction false} LineEndTake(s: Bytes, p: nat, i: nat)
    requires i <= p < |s| && s[p] == NEWLINE
    ensures LineEnd(s[..p], i) == LineEnd(s, i)
    decreases p - i
  {
    if i < p && s[i] != NEWLINE { LineEndTake(s, p, i + 1); }
  }

  lemma {:induction false} LastCloseTake(s: Bytes, p: nat, lo: nat, hi: nat)
    requires hi <= p <= |s|
    ensures LastClose(s[..p], lo, hi) == LastClose(s, lo, hi)
    decreases hi
  {
    if lo < hi && s[hi - 1] != CLOSE { LastCloseTake(s, p, lo, hi - 1); }
  }

  lemma DataBytes(s: Bytes, i: nat)
    ensures DataAt(s, i) ==> s[i] == 100
    ensures DataAt(s, i) ==> forall k :: i <= k < i + 5 ==> !IsSpace(s[k]) && s[k] != CLOSE
    ensures DataAt(s, i) ==> forall k :: i < k < i + 5 ==> s[k] != 100
  {
  }

  lemma JsonTake(s: Bytes, p: nat, j: nat)
    requires j < p < |s| && s[p] == NEWLINE
    ensures JsonAt(s[..p], j) == JsonAt(s, j)
    ensures JsonAt(s, j).Some? ==> JsonAt(s, j).value.end <= p
  {
    LineEndTake(s, p, j + 1);
    LastCloseTake(s, p, j + 2, LineEnd(s, j + 1));
  }

  /** Cutting the bytes at a line's end keeps the matches whose JSON starts before the
      cut and loses the others. */
  lemma MatchTake(s: Bytes, p: nat, i: nat)
    requires i < p < |s| && s[p] == NEWLINE
    ensures MatchAt(s[..p], i)
            == if MatchAt(s, i).Some? && MatchAt(s, i).value.json < p then MatchAt(s, i) else None
    ensures MatchAt(s, i).Some? && MatchAt(s, i).value.json < p ==> MatchAt(s, i).value.end <= p
  {
    assert DataAt(s[..p], i) <==> DataAt(s, i);
    if DataAt(s, i) {
      SkipSpaceTake(s, p, i + 5);
      var j := SkipSpace(s, i + 5);
      if j < p { JsonTake(s, p, j); }
    }
  }
}
