/**
 * Retrieval of court rulings for a question (services/embeddingService.js): a
 * vector search that falls back to a text search, a "hybrid" search that runs
 * the two one after the other, first-occurrence de-duplication, and the
 * context text handed to the language model.
 *
 * The embedding model and the database are oracles, bundled in a Backend: each
 * query either throws (Failed, with its error message) or returns its rows.
 * Columns that are only ever printed are kept in their printed form.
 */
module Retrieval {
  import opened Text

  /** The outcome of a call that may throw: the error's message, or the value. */
  datatype Attempt<+T> = Failed(message: string) | Done(value: T)

  type Vector = seq<real>

  /** A row of `kararlar` (a ruling). `tumMetin` is None when the column is NULL. */
  datatype Ruling = Ruling(id: nat, baslik: string, mahkeme: string, kararTarihi: string,
                           basvuruNo: string, basvurucu: string, kararOzeti: string,
                           tumMetin: Option<string>)

  /** A search result: a chunk of a ruling joined with the ruling's columns. */
  datatype Chunk = Chunk(kararId: nat, chunkIndex: nat, section: string, chunkText: Option<string>,
                         baslik: string, mahkeme: string, kararTarihi: string, basvuruNo: string,
                         basvurucu: string, kararOzeti: string, distance: real)

  /**
   * embed: the embedding model; nearest: the pgvector query (closest chunks
   * first, at most the given number); textMatch: the ILIKE query on titles and
   * summaries with the given pattern (newest first, at most the given number).
   */
  datatype Backend = Backend(
    embed: string -> Attempt<Vector>,
    nearest: (Vector, nat) -> Attempt<seq<Chunk>>,
    textMatch: (string, nat) -> Attempt<seq<Ruling>>)

  /** `getEmbedding`: the vector, or null when the model call fails. */
  function GetEmbedding(b: Backend, text: string): (r: Option<Vector>)
    ensures r.None? <==> b.embed(text).Failed?
    ensures r.Some? ==> r.value == b.embed(text).value
  {
    match b.embed(text)
    case Failed(_) => None
    case Done(v) => Some(v)
  }

  /** The ILIKE pattern `%query%`. */
  function LikeTerm(query: string): (r: string)
    ensures |r| == |query| + 2 && r[0] == '%' && r[|r| - 1] == '%' && r[1..|r| - 1] == query
  {
    "%" + query + "%"
  }

  /** How the text search presents a ruling as a search result. */
  function FallbackRow(k: Ruling): Chunk {
    Chunk(k.id, 0, "tum_metin", k.tumMetin, k.baslik, k.mahkeme, k.kararTarihi, k.basvuruNo,
          k.basvurucu, k.kararOzeti, 1.0)
  }

  function FallbackRows(ks: seq<Ruling>): (r: seq<Chunk>)
    ensures |r| == |ks| && forall i :: 0 <= i < |ks| ==> r[i] == FallbackRow(ks[i])
  {
    if ks == [] then [] else [FallbackRow(ks[0])] + FallbackRows(ks[1..])
  }

  /** A result row as the text search makes it: the whole ruling as chunk 0, at distance 1. */
  predicate IsFallbackRow(r: Chunk) {
    r.chunkIndex == 0 && r.section == "tum_metin" && r.distance == 1.0
  }

  /** `fallbackTextSearch`: rulings whose title or summary contains the query; [] when the query throws. */
  function FallbackTextSearch(b: Backend, query: string, limit: nat): (r: seq<Chunk>)
    ensures forall i :: 0 <= i < |r| ==> IsFallbackRow(r[i])
    ensures b.textMatch(LikeTerm(query), limit).Failed? ==> r == []
    ensures b.textMatch(LikeTerm(query), limit).Done? ==>
              |r| == |b.textMatch(LikeTerm(query), limit).value|
              && forall i :: 0 <= i < |r| ==> r[i].kararId == b.textMatch(LikeTerm(query), limit).value[i].id
  {
    match b.textMatch(LikeTerm(query), limit)
    case Failed(_) => []
    case Done(ks) => FallbackRows(ks)
  }

  /**
   * `searchByEmbedding`: the nearest chunks; the text search instead when no
   * embedding could be made or the vector query throws.
   */
  function SearchByEmbedding(b: Backend, query: string, limit: nat): (r: seq<Chunk>)
    ensures GetEmbedding(b, query).None? ==> r == FallbackTextSearch(b, query, limit)
    ensures (GetEmbedding(b, query).Some? && b.nearest(GetEmbedding(b, query).value, limit).Failed?)
              ==> r == FallbackTextSearch(b, query, limit)
    ensures (GetEmbedding(b, query).Some? && b.nearest(GetEmbedding(b, query).value, limit).Done?)
              ==> r == b.nearest(GetEmbedding(b, query).value, limit).value
  {
    match GetEmbedding(b, query)
    case None => FallbackTextSearch(b, query, limit)
    case Some(v) =>
      match b.nearest(v, limit)
      case Failed(_) => FallbackTextSearch(b, query, limit)
      case Done(rows) => rows
  }

  // ---------------------------------------------------------------------------
  // De-duplication on `${karar_id}-${chunk_index}`

  function KeyText(kararId: nat, chunkIndex: nat): string {
    NatToString(kararId) + "-" + NatToString(chunkIndex)
  }

  function Key(r: Chunk): string { KeyText(r.kararId, r.chunkIndex) }

  /** In `${a}-${b}` the first non-digit is the dash right after a's digits. */
  lemma DashAfterDigits(x: string, y: string)
    requires forall j :: 0 <= j < |x| ==> IsDigit(x[j])
    ensures Span(x + "-" + y, 0, IsDigit) == |x|
  {
    var s := x + "-" + y;
    assert s[|x|] == '-';
    assert forall j :: 0 <= j < |x| ==> s[j] == x[j];
    SpanUnique(s, 0, |x|, IsDigit);
  }

  /** Two rows share a key exactly when they agree on ruling and chunk. */
  lemma KeyTextInjective(a: nat, b: nat, c: nat, d: nat)
    ensures KeyText(a, b) == KeyText(c, d) <==> a == c && b == d
  {
    if KeyText(a, b) == KeyText(c, d) {
      var x, y, x', y' := NatToString(a), NatToString(b), NatToString(c), NatToString(d);
      var s := KeyText(a, b);
      DashAfterDigits(x, y);
      DashAfterDigits(x', y');
      assert |x| == |x'|;
      assert x == s[..|x|] == x';
      assert y == s[|x| + 1..] == y';
      NatToStringRoundTrip(a);
      NatToStringRoundTrip(b);
      NatToStringRoundTrip(c);
      NatToStringRoundTrip(d);
    }
  }

  function Keys(rs: seq<Chunk>): set<string> {
    set i | 0 <= i < |rs| :: Key(rs[i])
  }

  lemma KeysSnoc(rs: seq<Chunk>, x: Chunk)
    ensures Keys(rs + [x]) == Keys(rs) + {Key(x)}
  {
    var t := rs + [x];
    assert t[|rs|] == x;
    forall k | k in Keys(t) ensures k in Keys(rs) + {Key(x)} {
      var i :| 0 <= i < |t| && Key(t[i]) == k;
      if i < |rs| { assert t[i] == rs[i]; }
    }
    forall k | k in Keys(rs) ensures k in Keys(t) {
      var i :| 0 <= i < |rs| && Key(rs[i]) == k;
      assert t[i] == rs[i];
    }
  }

  /** `deduplicateResults`, read left to right: a row is kept when its key has not been seen. */
  function Dedup(rs: seq<Chunk>): seq<Chunk>
    decreases |rs|
  {
    if rs == [] then []
    else
      var init := rs[..|rs| - 1];
      if Key(rs[|rs| - 1]) in Keys(init) then Dedup(init) else Dedup(init) + [rs[|rs| - 1]]
  }

  /** Row i is the first row with its key. */
  predicate FirstOccurrence(rs: seq<Chunk>, i: int) {
    0 <= i < |rs| && forall j :: 0 <= j < i ==> Key(rs[j]) != Key(rs[i])
  }

  /**
   * The output is the subsequence of the input made of the first occurrences of
   * the keys, in input order: idx gives, increasing, the input position of each
   * output row, and every first occurrence is among them.
   */
  lemma {:induction false} DedupShape(rs: seq<Chunk>) returns (idx: seq<nat>)
    ensures |idx| == |Dedup(rs)|
    ensures forall k :: 0 <= k < |idx| ==> idx[k] < |rs| && Dedup(rs)[k] == rs[idx[k]] && FirstOccurrence(rs, idx[k])
    ensures forall k, l :: 0 <= k < l < |idx| ==> idx[k] < idx[l]
    ensures forall i :: FirstOccurrence(rs, i) ==> i in idx
    decreases |rs|
  {
    if rs == [] {
      return [];
    }
    var idx0 := DedupShape(rs[..|rs| - 1]);
    idx := DedupShapeStep(rs, idx0);
  }

  /** The shape of DedupShape, carried from the input without its last row to the whole input. */
  ghost predicate IsDedupShape(rs: seq<Chunk>, d: seq<Chunk>, idx: seq<nat>) {
    && |idx| == |d|
    && (forall k :: 0 <= k < |idx| ==> idx[k] < |rs| && d[k] == rs[idx[k]] && FirstOccurrence(rs, idx[k]))
    && (forall k, l :: 0 <= k < l < |idx| ==> idx[k] < idx[l])
    && (forall i :: FirstOccurrence(rs, i) ==> i in idx)
  }

  lemma DedupShapeStep(rs: seq<Chunk>, idx0: seq<nat>) returns (idx: seq<nat>)
    requires rs != [] && IsDedupShape(rs[..|rs| - 1], Dedup(rs[..|rs| - 1]), idx0)
    ensures IsDedupShape(rs, Dedup(rs), idx)
  {
    if Key(rs[|rs| - 1]) in Keys(rs[..|rs| - 1]) {
      DedupShapeSkip(rs, idx0);
      idx := idx0;
    } else {
      LastIsFirst(rs);
      DedupShapeKeep(rs, idx0);
      idx := idx0 + [|rs| - 1];
    }
  }

  /** A repeated last key: the output and its positions stay. */
  lemma DedupShapeSkip(rs: seq<Chunk>, idx0: seq<nat>)
    requires rs != [] && IsDedupShape(rs[..|rs| - 1], Dedup(rs[..|rs| - 1]), idx0)
    requires Key(rs[|rs| - 1]) in Keys(rs[..|rs| - 1])
    ensures IsDedupShape(rs, Dedup(rs), idx0)
  {
    assert Dedup(rs) == Dedup(rs[..|rs| - 1]);
    LastNotFirst(rs);
    ShapeKeptPositions(rs, idx0);
    ShapeKeptFirsts(rs, idx0);
  }

  /** A new last key: the last row and its position are appended. */
  lemma DedupShapeKeep(rs: seq<Chunk>, idx0: seq<nat>)
    requires rs != [] && IsDedupShape(rs[..|rs| - 1], Dedup(rs[..|rs| - 1]), idx0)
    requires FirstOccurrence(rs, |rs| - 1)
    ensures IsDedupShape(rs, Dedup(rs[..|rs| - 1]) + [rs[|rs| - 1]], idx0 + [|rs| - 1])
  {
    var n := |rs|;
    var d0, idx := Dedup(rs[..n - 1]), idx0 + [n - 1];
    ShapeKeptPositions(rs, idx0);
    ShapeKeptFirsts(rs, idx0);
    assert forall k :: 0 <= k < |idx0| ==> idx[k] == idx0[k] && (d0 + [rs[n - 1]])[k] == d0[k];
    assert idx[|idx0|] == n - 1 && (d0 + [rs[n - 1]])[|idx0|] == rs[n - 1];
    forall k, l | 0 <= k < l < |idx| ensures idx[k] < idx[l] {
      if l == |idx0| {
        assert idx[k] == idx0[k] < n - 1;
      }
    }
  }

  /** The positions found for the input without its last row stay first occurrences. */
  lemma ShapeKeptPositions(rs: seq<Chunk>, idx0: seq<nat>)
    requires rs != [] && IsDedupShape(rs[..|rs| - 1], Dedup(rs[..|rs| - 1]), idx0)
    ensures forall k :: 0 <= k < |idx0| ==>
              idx0[k] < |rs| - 1 && Dedup(rs[..|rs| - 1])[k] == rs[idx0[k]] && FirstOccurrence(rs, idx0[k])
  {
    forall k | 0 <= k < |idx0|
      ensures idx0[k] < |rs| - 1 && Dedup(rs[..|rs| - 1])[k] == rs[idx0[k]] && FirstOccurrence(rs, idx0[k])
    {
      FirstOccurrenceOfPrefix(rs, idx0[k]);
    }
  }

  /** Every first occurrence before the last row was already found. */
  lemma ShapeKeptFirsts(rs: seq<Chunk>, idx0: seq<nat>)
    requires rs != [] && IsDedupShape(rs[..|rs| - 1], Dedup(rs[..|rs| - 1]), idx0)
    ensures forall i :: FirstOccurrence(rs, i) && i < |rs| - 1 ==> i in idx0
  {
    forall i | FirstOccurrence(rs, i) && i < |rs| - 1 ensures i in idx0 {
      FirstOccurrenceOfPrefix(rs, i);
    }
  }

  lemma FirstOccurrenceOfPrefix(rs: seq<Chunk>, i: nat)
    requires i < |rs| - 1
    ensures FirstOccurrence(rs[..|rs| - 1], i) <==> FirstOccurrence(rs, i)
  {
    assert forall j :: 0 <= j <= i ==> rs[..|rs| - 1][j] == rs[j];
  }

  lemma LastNotFirst(rs: seq<Chunk>)
    requires rs != [] && Key(rs[|rs| - 1]) in Keys(rs[..|rs| - 1])
    ensures !FirstOccurrence(rs, |rs| - 1)
  {
    var j :| 0 <= j < |rs| - 1 && Key(rs[..|rs| - 1][j]) == Key(rs[|rs| - 1]);
    assert rs[..|rs| - 1][j] == rs[j];
  }

  lemma LastIsFirst(rs: seq<Chunk>)
    requires rs != [] && Key(rs[|rs| - 1]) !in Keys(rs[..|rs| - 1])
    ensures FirstOccurrence(rs, |rs| - 1)
  {
    forall j | 0 <= j < |rs| - 1 ensures Key(rs[j]) != Key(rs[|rs| - 1]) {
      assert rs[..|rs| - 1][j] == rs[j];
    }
  }

  /** Every key among the first i rows has a first occurrence at or before i. */
  lemma {:induction false} FirstWithKey(rs: seq<Chunk>, i: nat) returns (j: nat)
    requires i < |rs|
    ensures j <= i && Key(rs[j]) == Key(rs[i]) && FirstOccurrence(rs, j)
    decreases i
  {
    if FirstOccurrence(rs, i) {
      return i;
    }
    var j0 :| 0 <= j0 < i && Key(rs[j0]) == Key(rs[i]);
    j := FirstWithKey(rs, j0);
  }

  /** No two output rows share a key. */
  lemma DedupKeysDistinct(rs: seq<Chunk>)
    ensures forall k, l :: 0 <= k < l < |Dedup(rs)| ==> Key(Dedup(rs)[k]) != Key(Dedup(rs)[l])
  {
    var idx := DedupShape(rs);
  }

  /** Every key of the input is the key of some output row. */
  lemma DedupKeepsEveryKey(rs: seq<Chunk>)
    ensures Keys(Dedup(rs)) == Keys(rs)
  {
    var d := Dedup(rs);
    var idx := DedupShape(rs);
    forall k | k in Keys(rs) ensures k in Keys(d) {
      var i :| 0 <= i < |rs| && Key(rs[i]) == k;
      var j := FirstWithKey(rs, i);
      var m :| 0 <= m < |idx| && idx[m] == j;
      assert Key(d[m]) == k;
    }
  }

  /** A row that agrees with no earlier row on ruling and chunk survives. */
  lemma DedupKeepsNewPairs(rs: seq<Chunk>, i: nat)
    requires i < |rs|
    requires forall j :: 0 <= j < i ==> rs[j].kararId != rs[i].kararId || rs[j].chunkIndex != rs[i].chunkIndex
    ensures rs[i] in Dedup(rs)
  {
    NewPairIsFirst(rs, i);
    var idx := DedupShape(rs);
    var m :| 0 <= m < |idx| && idx[m] == i;
    assert Dedup(rs)[m] == rs[i];
  }

  lemma NewPairIsFirst(rs: seq<Chunk>, i: nat)
    requires i < |rs|
    requires forall j :: 0 <= j < i ==> rs[j].kararId != rs[i].kararId || rs[j].chunkIndex != rs[i].chunkIndex
    ensures FirstOccurrence(rs, i)
  {
    forall j | 0 <= j < i ensures Key(rs[j]) != Key(rs[i]) {
      KeyTextInjective(rs[j].kararId, rs[j].chunkIndex, rs[i].kararId, rs[i].chunkIndex);
    }
  }

  /**
   * Vector results come first: a row whose key also appears among the vector
   * results is kept in its vector-search copy.
   */
  lemma EmbeddingCopyKept(e: seq<Chunk>, t: seq<Chunk>)
    ensures forall x :: x in Dedup(e + t) && Key(x) in Keys(e) ==> x in e
  {
    var rs := e + t;
    var idx := DedupShape(rs);
    forall x | x in Dedup(rs) && Key(x) in Keys(e) ensures x in e {
      var k :| 0 <= k < |Dedup(rs)| && Dedup(rs)[k] == x;
      var j :| 0 <= j < |e| && Key(e[j]) == Key(x);
      assert rs[j] == e[j];
      assert idx[k] <= j;
      assert rs[idx[k]] == e[idx[k]];
    }
  }

  /** Text-search rows are all chunk 0, so no ruling is listed twice among them. */
  lemma FallbackRowsOnePerRuling(rs: seq<Chunk>)
    requires forall i :: 0 <= i < |rs| ==> IsFallbackRow(rs[i])
    ensures forall k, l :: 0 <= k < l < |Dedup(rs)| ==> Dedup(rs)[k].kararId != Dedup(rs)[l].kararId
  {
    var idx := DedupShape(rs);
    DedupKeysDistinct(rs);
  }

  lemma DedupSnoc(rs: seq<Chunk>, x: Chunk)
    ensures Dedup(rs + [x]) == if Key(x) in Keys(rs) then Dedup(rs) else Dedup(rs) + [x]
  {
    var t := rs + [x];
    assert t[..|t| - 1] == rs && t[|t| - 1] == x;
  }

  lemma DedupStep(rs: seq<Chunk>, i: nat)
    requires i < |rs|
    ensures Dedup(rs[..i + 1]) == if Key(rs[i]) in Keys(rs[..i]) then Dedup(rs[..i]) else Dedup(rs[..i]) + [rs[i]]
    ensures Keys(rs[..i + 1]) == Keys(rs[..i]) + {Key(rs[i])}
  {
    assert rs[..i + 1] == rs[..i] + [rs[i]];
    DedupSnoc(rs[..i], rs[i]);
    KeysSnoc(rs[..i], rs[i]);
  }

  /** `deduplicateResults`: a filter that records each key in a `seen` set. */
  method Deduplicate(results: seq<Chunk>) returns (out: seq<Chunk>)
    ensures out == Dedup(results)
  {
    var seen: set<string> := {};
    out := [];
    var i := 0;
    while i < |results|
      invariant 0 <= i <= |results|
      invariant out == Dedup(results[..i]) && seen == Keys(results[..i])
    {
      var key := Key(results[i]);
      DedupStep(results, i);
      if key !in seen {
        out := out + [results[i]];
        seen := seen + {key};
      }
      i := i + 1;
    }
    assert results[..i] == results;
  }

  // ---------------------------------------------------------------------------
  // Hybrid search

  /** `Math.ceil(limit / 2)`. */
  function Half(limit: nat): (h: nat)
    ensures limit <= 2 * h <= limit + 1
  {
    (limit + 1) / 2
  }

  /** What `hybridSearch` returns: vector rows then text rows, de-duplicated, cut to `limit`. */
  function HybridResult(b: Backend, query: string, limit: nat): (r: seq<Chunk>)
    ensures |r| <= limit
  {
    Prefix(Dedup(SearchByEmbedding(b, query, Half(limit)) + FallbackTextSearch(b, query, Half(limit))), limit)
  }

  /** The rows of a hybrid search are unique on ruling and chunk. */
  lemma HybridRowsDistinct(b: Backend, query: string, limit: nat)
    ensures forall k, l :: 0 <= k < l < |HybridResult(b, query, limit)| ==>
              Key(HybridResult(b, query, limit)[k]) != Key(HybridResult(b, query, limit)[l])
  {
    DedupKeysDistinct(SearchByEmbedding(b, query, Half(limit)) + FallbackTextSearch(b, query, Half(limit)));
  }

  /** `hybridSearch`: the two searches run one after the other, each asked for half the limit. */
  method HybridSearch(b: Backend, query: string, limit: nat) returns (r: seq<Chunk>)
    ensures r == HybridResult(b, query, limit)
  {
    var half := Half(limit);
    var embeddingResults := SearchByEmbedding(b, query, half);
    var textResults := FallbackTextSearch(b, query, half);
    var uniqueResults := Deduplicate(embeddingResults + textResults);
    r := Prefix(uniqueResults, limit);
  }

  // ---------------------------------------------------------------------------
  // Context text

  const ContextHeader := "İlgili mahkeme kararları:\n\n"

  /** The block for the n-th result, its text cut to 600 characters. */
  function ChunkBlock(n: nat, c: Chunk, text: string): string {
    NatToString(n) + ". Başlık: " + c.baslik + "\n"
    + "   Mahkeme: " + c.mahkeme + "\n"
    + "   Başvuru No: " + c.basvuruNo + "\n"
    + "   Tarih: " + c.kararTarihi + "\n"
    + "   Başvurucu: " + c.basvurucu + "\n"
    + "   Bölüm: " + c.section + "\n"
    + "   İlgili Metin: " + Prefix(text, 600) + "...\n\n"
  }

  /** The blocks of the results, numbered from 1; None when a chunk text is NULL (the loop throws). */
  function ChunkBlocks(rs: seq<Chunk>): (r: Option<string>)
    ensures r.Some? <==> forall i :: 0 <= i < |rs| ==> rs[i].chunkText.Some?
    decreases |rs|
  {
    if rs == [] then Some("")
    else
      var last := rs[|rs| - 1];
      match ChunkBlocks(rs[..|rs| - 1])
      case None => None
      case Some(blocks) =>
        match last.chunkText
        case None => None
        case Some(t) => Some(blocks + ChunkBlock(|rs|, last, t))
  }

  lemma ChunkBlocksSnoc(rs: seq<Chunk>, x: Chunk)
    requires ChunkBlocks(rs).Some? && x.chunkText.Some?
    ensures ChunkBlocks(rs + [x]) == Some(ChunkBlocks(rs).value + ChunkBlock(|rs| + 1, x, x.chunkText.value))
  {
    var t := rs + [x];
    assert t[..|t| - 1] == rs && t[|t| - 1] == x;
  }

  lemma ContextSnoc(rs: seq<Chunk>, x: Chunk)
    requires ChunkBlocks(rs).Some? && x.chunkText.Some?
    ensures EmbeddingContext(rs + [x]) == Some(EmbeddingContext(rs).value + ChunkBlock(|rs| + 1, x, x.chunkText.value))
  {
    ChunkBlocksSnoc(rs, x);
    var blocks, block := ChunkBlocks(rs).value, ChunkBlock(|rs| + 1, x, x.chunkText.value);
    Associative(ContextHeader, blocks, block);
  }

  lemma ContextStep(rs: seq<Chunk>, i: nat)
    requires i < |rs| && EmbeddingContext(rs[..i]).Some? && rs[i].chunkText.Some?
    ensures EmbeddingContext(rs[..i + 1]) == Some(EmbeddingContext(rs[..i]).value + ChunkBlock(i + 1, rs[i], rs[i].chunkText.value))
  {
    assert rs[..i + 1] == rs[..i] + [rs[i]];
    ContextSnoc(rs[..i], rs[i]);
  }

  lemma Associative(a: string, b: string, c: string)
    ensures a + (b + c) == (a + b) + c
  {
  }

  function EmbeddingContext(rs: seq<Chunk>): (r: Option<string>)
    ensures r.Some? ==> |r.value| >= |ContextHeader| && r.value[..|ContextHeader|] == ContextHeader
  {
    match ChunkBlocks(rs)
    case None => None
    case Some(blocks) => Some(ContextHeader + blocks)
  }

  /** The context is longer than 50 characters exactly when there is at least one result. */
  lemma ContextLengthRule(rs: seq<Chunk>)
    requires EmbeddingContext(rs).Some?
    ensures |EmbeddingContext(rs).value| > 50 <==> rs != []
  {
    assert |ContextHeader| == 27;
    if rs != [] {
      var last := rs[|rs| - 1];
      var blocks := ChunkBlocks(rs[..|rs| - 1]).value;
      assert ChunkBlocks(rs).value == blocks + ChunkBlock(|rs|, last, last.chunkText.value);
      BlockLength(|rs|, last, last.chunkText.value);
    }
  }

  lemma BlockLength(n: nat, c: Chunk, text: string)
    ensures |ChunkBlock(n, c, text)| > 23
  {
  }

  /** `prepareContextFromEmbeddings`: a hybrid search for five results, then one block per result. */
  method PrepareContextFromEmbeddings(b: Backend, query: string) returns (ctx: Option<string>)
    ensures ctx == EmbeddingContext(HybridResult(b, query, 5))
  {
    var similarCases := HybridSearch(b, query, 5);
    ctx := AppendBlocks(similarCases);
  }

  /** The loop of `prepareContextFromEmbeddings`: the header, then each block appended in turn. */
  method AppendBlocks(cases: seq<Chunk>) returns (ctx: Option<string>)
    ensures ctx == EmbeddingContext(cases)
  {
    var context := ContextHeader;
    var i := 0;
    assert ContextHeader + "" == ContextHeader;
    while i < |cases|
      invariant 0 <= i <= |cases|
      invariant EmbeddingContext(cases[..i]) == Some(context)
    {
      var c := cases[i];
      if c.chunkText.None? {
        assert !ChunkBlocks(cases).Some?;
        return None;
      }
      ContextStep(cases, i);
      context := context + ChunkBlock(i + 1, c, c.chunkText.value);
      i := i + 1;
    }
    assert cases[..i] == cases;
    ctx := Some(context);
  }
}
