/** Retrieval: the best chunks of an organization's knowledge, found page by page, and the numbered
    context made of them. */
module TopChunks {
  import opened Wrappers
  import opened StableSort

  datatype Chunk = Chunk(id: string, documentId: string, ordinal: int, text: string, title: string,
                         collectionId: string, collectionName: string)

  /** A row that passes the query's filter; its vector may be missing or not be a list. */
  datatype Row = Row(chunk: Chunk, vector: Option<seq<real>>)

  datatype Scored = Scored(chunk: Chunk, score: real)

  /** `sort((a, b) => b.score - a.score)` */
  predicate Better(a: Scored, b: Scored) { a.score >= b.score }

  /** The rows with a vector, scored, in order. */
  function ScoreAll(rows: seq<Row>, similarity: seq<real> -> real): seq<Scored> {
    if rows == [] then []
    else
      var rest, last := ScoreAll(rows[..|rows| - 1], similarity), rows[|rows| - 1];
      if last.vector.None? then rest else rest + [Scored(last.chunk, similarity(last.vector.value))]
  }

  function Take<T>(s: seq<T>, k: nat): seq<T> {
    if k < |s| then s[..k] else s
  }

  /** `slice(0, end)`: a negative end counts from the back. */
  function SliceTo<T>(s: seq<T>, end: int): seq<T> {
    if end >= 0 then Take(s, end) else if |s| + end > 0 then s[..|s| + end] else []
  }

  /** `findMany({ skip, take })` over the rows in id order. */
  function Page(rows: seq<Row>, skip: nat, take: nat): seq<Row> {
    if skip >= |rows| then [] else Take(rows[skip..], take)
  }

  // ---------------------------------------------------------------- truncating while inserting

  lemma BetterOrders()
    ensures TotalPreorder(Better)
  {
  }

  /** What falls off the end can be forgotten: it would fall off again. */
  lemma {:induction false} TruncatedInsert<T(!new)>(le: (T, T) -> bool, x: T, s: seq<T>, k: nat)
    requires TotalPreorder(le) && Sorted(le, s)
    ensures Take(Insert(le, x, Take(s, k)), k) == Take(Insert(le, x, s), k)
  {
    if k < |s| {
      var init, last := s[..|s| - 1], s[|s| - 1];
      assert Take(init, k) == Take(s, k);
      TruncatedInsert(le, x, init, k);
      InsertLength(le, x, init);
      if le(last, x) {
        assert forall i :: 0 <= i < |init| ==> le(init[i], last);
        InsertAtEnd(le, x, init);
        assert Take(s + [x], k) == Take(init + [x], k);
      } else {
        assert Take(Insert(le, x, init) + [last], k) == Take(Insert(le, x, init), k);
      }
    }
  }

  lemma {:induction false} InsertLength<T>(le: (T, T) -> bool, x: T, s: seq<T>)
    ensures |Insert(le, x, s)| == |s| + 1
  {
    if s != [] && !le(s[|s| - 1], x) { InsertLength(le, x, s[..|s| - 1]); }
  }

  lemma InsertAtEnd<T>(le: (T, T) -> bool, x: T, s: seq<T>)
    requires s == [] || le(s[|s| - 1], x)
    ensures Insert(le, x, s) == s + [x]
  {
  }

  function Max0(n: int): nat { if n > 0 then n else 0 }

  function Best(scored: seq<Scored>, topK: int): seq<Scored> {
    Take(Sort(Better, scored), Max0(topK))
  }

  lemma TakeStaysSorted<T(!new)>(le: (T, T) -> bool, s: seq<T>, k: nat)
    requires Sorted(le, s)
    ensures Sorted(le, Take(s, k))
  {
  }

  lemma SortSnoc<T>(le: (T, T) -> bool, s: seq<T>, x: T)
    ensures Sort(le, s + [x]) == Insert(le, x, Sort(le, s))
  {
  }

  lemma Truncation<T>(pushed: seq<T>, topK: int)
    requires 1 <= |pushed| <= Max0(topK) + 1
    ensures (if |pushed| > topK then SliceTo(pushed, topK) else pushed) == Take(pushed, Max0(topK))
  {
  }

  /** One turn of the inner loop: push, sort, truncate. */
  lemma PushSortTruncate(scored: seq<Scored>, x: Scored, topK: int)
    ensures var pushed := Sort(Better, Best(scored, topK) + [x]);
            (if |pushed| > topK then SliceTo(pushed, topK) else pushed) == Best(scored + [x], topK)
  {
    var top, sorted := Best(scored, topK), Sort(Better, scored);
    BetterOrders();
    assert Sorted(Better, sorted) by { SortIsStable(Better, scored); }
    TakeStaysSorted(Better, sorted, Max0(topK));
    assert Sort(Better, top) == top by { SortOfSorted(Better, top); }
    SortSnoc(Better, top, x);
    SortSnoc(Better, scored, x);
    TruncatedInsert(Better, x, sorted, Max0(topK));
    InsertLength(Better, x, top);
    Truncation(Sort(Better, top + [x]), topK);
  }

  /** What is left out scores no better than anything that is kept. */
  lemma BestBeatsTheRest(scored: seq<Scored>, topK: int) returns (rest: seq<Scored>)
    ensures multiset(scored) == multiset(Best(scored, topK)) + multiset(rest)
    ensures forall a, b :: a in Best(scored, topK) && b in rest ==> a.score >= b.score
    ensures |Best(scored, topK)| == Max0(topK) || rest == []
  {
    BetterOrders();
    SortIsStable(Better, scored);
    var sorted := Sort(Better, scored);
    rest := sorted[|Best(scored, topK)|..];
    assert sorted == Best(scored, topK) + rest;
    forall a, b | a in Best(scored, topK) && b in rest ensures a.score >= b.score {
      var i :| 0 <= i < |Best(scored, topK)| && sorted[i] == a;
      var j :| 0 <= j < |rest| && rest[j] == b;
      assert Better(sorted[i], sorted[|Best(scored, topK)| + j]);
    }
  }

  lemma ScoreAllSnoc(rows: seq<Row>, i: nat, similarity: seq<real> -> real)
    requires i < |rows|
    ensures var rest, row := ScoreAll(rows[..i], similarity), rows[i];
            ScoreAll(rows[..i + 1], similarity)
            == if row.vector.None? then rest else rest + [Scored(row.chunk, similarity(row.vector.value))]
  {
    assert rows[..i + 1][..i] == rows[..i];
  }

  /** What the inner loop does with one row. */
  function Keep(top: seq<Scored>, row: Row, similarity: seq<real> -> real, topK: int): seq<Scored> {
    if row.vector.None? then top
    else
      var pushed := Sort(Better, top + [Scored(row.chunk, similarity(row.vector.value))]);
      if |pushed| > topK then SliceTo(pushed, topK) else pushed
  }

  lemma KeepsBest(rows: seq<Row>, i: nat, similarity: seq<real> -> real, topK: int)
    requires i < |rows|
    ensures Keep(Best(ScoreAll(rows[..i], similarity), topK), rows[i], similarity, topK)
            == Best(ScoreAll(rows[..i + 1], similarity), topK)
  {
    ScoreAllSnoc(rows, i, similarity);
    var row := rows[i];
    if row.vector.Some? {
      PushSortTruncate(ScoreAll(rows[..i], similarity), Scored(row.chunk, similarity(row.vector.value)), topK);
    }
  }

  /** What the loops should hold after every row. */
  lemma BestSoFar(rows: seq<Row>, similarity: seq<real> -> real, topK: int) returns (best: seq<seq<Scored>>)
    ensures |best| == |rows| + 1 && best[0] == [] && best[|rows|] == Best(ScoreAll(rows, similarity), topK)
    ensures forall i :: 0 <= i < |rows| ==> best[i + 1] == Keep(best[i], rows[i], similarity, topK)
  {
    best := seq(|rows| + 1, n requires 0 <= n <= |rows| => Best(ScoreAll(rows[..n], similarity), topK));
    forall i | 0 <= i < |rows| ensures best[i + 1] == Keep(best[i], rows[i], similarity, topK) {
      KeepsBest(rows, i, similarity, topK);
    }
    assert rows[..|rows|] == rows;
  }

  /** Paging through the rows and keeping `topK` gives what sorting all of them would, ties in id order. */
  method RetrieveTopChunks(rows: seq<Row>, similarity: seq<real> -> real, topK: int, batchSize: nat)
    returns (top: seq<Scored>)
    requires batchSize >= 1
    ensures top == Best(ScoreAll(rows, similarity), topK)
  {
    ghost var best := BestSoFar(rows, similarity, topK);
    top := [];
    var skip := 0;
    while true
      invariant 0 <= skip <= |rows| && top == best[skip]
      decreases |rows| - skip
    {
      var batch := Page(rows, skip, batchSize);
      if |batch| == 0 { break; }
      var i := 0;
      while i < |batch|
        invariant 0 <= i <= |batch| && top == best[skip + i]
      {
        assert batch[i] == rows[skip + i];
        var vec := batch[i].vector;
        if vec.Some? {
          var score := similarity(vec.value);
          top := top + [Scored(batch[i].chunk, score)];
          top := Sort(Better, top);
          if |top| > topK { top := SliceTo(top, topK); }
        }
        i := i + 1;
      }
      skip := skip + |batch|;
    }
  }

  // ---------------------------------------------------------------- the score threshold

  /** `filter((item) => item.score >= minScore)` */
  function AtLeast(s: seq<Scored>, minScore: real): (r: seq<Scored>)
    ensures |r| <= |s|
  {
    if s == [] then []
    else if s[0].score >= minScore then [s[0]] + AtLeast(s[1..], minScore) else AtLeast(s[1..], minScore)
  }

  function Relevant(s: seq<Scored>, minScore: real): seq<Scored> {
    if minScore > 0.0 then AtLeast(s, minScore) else s
  }

  lemma {:induction false} NoneAtLeast(s: seq<Scored>, minScore: real)
    requires forall i :: 0 <= i < |s| ==> s[i].score < minScore
    ensures AtLeast(s, minScore) == []
  {
    if s != [] { NoneAtLeast(s[1..], minScore); }
  }

  /** On a descending list the filter keeps a prefix, so it moves nothing. */
  lemma {:induction false} ThresholdKeepsPrefix(s: seq<Scored>, minScore: real)
    requires Sorted(Better, s)
    ensures AtLeast(s, minScore) == s[..|AtLeast(s, minScore)|]
    ensures forall i :: 0 <= i < |s| ==> (s[i].score >= minScore <==> i < |AtLeast(s, minScore)|)
  {
    if s != [] {
      assert Sorted(Better, s[1..]) by {
        forall i, j | 0 <= i < j < |s| - 1 ensures Better(s[1..][i], s[1..][j]) { assert Better(s[i + 1], s[j + 1]); }
      }
      ThresholdKeepsPrefix(s[1..], minScore);
      if s[0].score >= minScore {
        assert s == [s[0]] + s[1..];
      } else {
        forall i | 0 <= i < |s[1..]| ensures s[1..][i].score < minScore { assert Better(s[0], s[i + 1]); }
        NoneAtLeast(s[1..], minScore);
      }
      assert forall i :: 1 <= i < |s| ==> s[i] == s[1..][i - 1];
    }
  }

  lemma AtLeastOfPrefix(s: seq<Scored>, k: nat, minScore: real)
    requires Sorted(Better, s)
    ensures AtLeast(Take(s, k), minScore) == Take(AtLeast(s, minScore), k)
  {
    TakeStaysSorted(Better, s, k);
    ThresholdKeepsPrefix(s, minScore);
    ThresholdKeepsPrefix(Take(s, k), minScore);
    var m, n, t := |AtLeast(Take(s, k), minScore)|, |AtLeast(s, minScore)|, Take(s, k);
    if m < |t| { assert t[m] == s[m]; }
    if 0 < m { assert t[m - 1] == s[m - 1]; }
    assert m == if n < |t| then n else |t|;
  }

  /** Truncating before filtering loses nothing: the relevant chunks are the first `topK` of all rows that
      reach the threshold. */
  lemma ThresholdAfterTruncation(scored: seq<Scored>, topK: int, minScore: real)
    ensures Relevant(Best(scored, topK), minScore) == Take(Relevant(Sort(Better, scored), minScore), Max0(topK))
  {
    BetterOrders();
    SortIsStable(Better, scored);
    AtLeastOfPrefix(Sort(Better, scored), Max0(topK), minScore);
  }

  // ---------------------------------------------------------------- context and citations

  /** One block of the prompt; `number` is what the model cites. */
  datatype Block = Block(number: nat, collectionName: string, title: string, documentId: string, text: string)

  datatype Citation = Citation(collectionId: string, collectionName: string, documentId: string, title: string,
                               ordinal: int, excerpt: string)

  function BuildContextBlocks(scored: seq<Scored>): seq<Block> {
    seq(|scored|, i requires 0 <= i < |scored| =>
      var c := scored[i].chunk;
      Block(i + 1, c.collectionName, c.title, c.documentId, c.text))
  }

  const EXCERPT_CHARS := 400

  const DEFAULT_RETRIEVAL_MIN_SCORE := 0.2

  function ToCitations(scored: seq<Scored>): seq<Citation> {
    seq(|scored|, i requires 0 <= i < |scored| =>
      var c := scored[i].chunk;
      Citation(c.collectionId, c.collectionName, c.documentId, c.title, c.ordinal, Take(c.text, EXCERPT_CHARS)))
  }

  const ELLIPSIS: string := "\U{2026}"

  /** The prompt budget of agent runs. */
  function Trimmed(s: Scored, chunkChars: nat): Scored {
    if |s.chunk.text| > chunkChars
    then s.(chunk := s.chunk.(text := Take(s.chunk.text, chunkChars) + ELLIPSIS))
    else s
  }

  function Inject(relevant: seq<Scored>, budget: bool, contextTopK: nat, chunkChars: nat): seq<Scored> {
    if budget
    then
      var kept := Take(relevant, contextTopK);
      seq(|kept|, i requires 0 <= i < |kept| => Trimmed(kept[i], chunkChars))
    else relevant
  }

  /** Block n of the context speaks of citation n: the same document, and text that agrees with
      the excerpt as far as both go. */
  predicate Matches(b: Block, c: Citation, chunkChars: nat) {
    && b.collectionName == c.collectionName && b.title == c.title && b.documentId == c.documentId
    && Take(Take(b.text, EXCERPT_CHARS), chunkChars) == Take(c.excerpt, chunkChars)
  }

  /** The context-only answer: the blocks that go into the prompt, and the citations of everything
      relevant. `minScore` falls back to a default under the agent budget and to nothing otherwise. */
  method QueryContext(rows: seq<Row>, similarity: seq<real> -> real, topK: int, batchSize: nat,
                      givenMinScore: Option<real>, budget: bool, contextTopK: nat, chunkChars: nat)
    returns (blocks: seq<Block>, citations: seq<Citation>)
    requires batchSize >= 1
    ensures var minScore := if givenMinScore.Some? then givenMinScore.value
            else if budget then 0.2 else 0.0;
            var relevant := Take(Relevant(Sort(Better, ScoreAll(rows, similarity)), minScore), Max0(topK));
            && citations == ToCitations(relevant)
            && blocks == BuildContextBlocks(Inject(relevant, budget, contextTopK, chunkChars))
  {
    var scored := RetrieveTopChunks(rows, similarity, topK, batchSize);
    var minScore :=
      if givenMinScore.Some? then givenMinScore.value
      else if budget then DEFAULT_RETRIEVAL_MIN_SCORE
      else 0.0;
    var relevant := if minScore > 0.0 then AtLeast(scored, minScore) else scored;
    ThresholdAfterTruncation(ScoreAll(rows, similarity), topK, minScore);
    if |scored| == 0 || |relevant| == 0 { return [], []; }
    citations := ToCitations(relevant);
    blocks := BuildContextBlocks(Inject(relevant, budget, contextTopK, chunkChars));
  }

  /** A threshold of zero or less keeps everything, another exactly what reaches it. */
  lemma {:induction false} RelevantInFields(s: seq<Scored>, minScore: real, x: Scored)
    ensures minScore <= 0.0 ==> Relevant(s, minScore) == s
    ensures minScore > 0.0 ==> (x in Relevant(s, minScore) <==> x in s && x.score >= minScore)
  {
    if s != [] {
      RelevantInFields(s[1..], minScore, x);
      assert s == [s[0]] + s[1..];
    }
  }

  /** Block n and citation n, part by part: the budget limits the blocks and their text, never the citations. */
  lemma ContextInFields(relevant: seq<Scored>, budget: bool, contextTopK: nat, chunkChars: nat, n: nat)
    requires n < |relevant|
    ensures var blocks, c := BuildContextBlocks(Inject(relevant, budget, contextTopK, chunkChars)), relevant[n].chunk;
            && (n < |blocks| <==> !budget || n < contextTopK)
            && (n < |blocks| ==>
                  var text := if budget && |c.text| > chunkChars then c.text[..chunkChars] + "\U{2026}" else c.text;
                  blocks[n] == Block(n + 1, c.collectionName, c.title, c.documentId, text))
    ensures var c := relevant[n].chunk;
            |ToCitations(relevant)| == |relevant|
            && ToCitations(relevant)[n]
               == Citation(c.collectionId, c.collectionName, c.documentId, c.title, c.ordinal,
                           if |c.text| > 400 then c.text[..400] else c.text)
  {
  }

  /** The number in front of a block is the number of its citation. */
  lemma LabelsMatchCitations(relevant: seq<Scored>, budget: bool, contextTopK: nat, chunkChars: nat)
    ensures var blocks, citations :=
            BuildContextBlocks(Inject(relevant, budget, contextTopK, chunkChars)), ToCitations(relevant);
            && |blocks| == (if budget && contextTopK < |relevant| then contextTopK else |relevant|)
            && |citations| == |relevant|
            && forall n :: 0 <= n < |blocks| ==>
                 blocks[n].number == n + 1 && Matches(blocks[n], citations[n], chunkChars)
  {
  }
}
