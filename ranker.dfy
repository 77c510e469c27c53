/** Ranker: scores every row of the index against the query embedding by dot
    product, keeps the rows scoring at least 0.3, sorts them by descending
    score and keeps the first `topN` (`calculate_top_titles` in
    gpthistory/helpers.py).

    Scores are exact reals. Every failure inside the ranking (a row whose
    vector does not have the query's length makes the dot product raise)
    becomes the empty result. Among equal scores no order is promised: the
    contracts and lemmas below hold for every order of ties. */
module Ranker {
  import opened Options
  import opened Batching
  import opened Embedder

  type ChatId = string

  /** One row of the index table: `chat_id`, `text`, `embeddings`. */
  datatype IndexRow = IndexRow(chatId: ChatId, text: string, embeddings: Vector)

  /** One result row: a table row's id and text with its score. */
  datatype Hit = Hit(chatId: ChatId, text: string, score: real)

  /** The three aligned result sequences. */
  datatype TopTitles = TopTitles(chatIds: seq<ChatId>, titles: seq<string>, scores: seq<real>)

  const SCORE_THRESHOLD: real := 0.3

  /** Default of the `top_n` parameter. */
  const DEFAULT_TOP_N: int := 1000

  const NO_RESULTS := TopTitles([], [], [])

  /** `np.dot` of two vectors: the sum of the products of their entries. */
  function Dot(u: Vector, v: Vector): real
    requires |u| == |v|
  {
    if |u| == 0 then 0.0 else u[0] * v[0] + Dot(u[1..], v[1..])
  }

  /** The dot product can be computed: every row vector has the query's
      length. Otherwise numpy raises and the ranking returns nothing. */
  predicate ShapesMatch(rows: seq<IndexRow>, query: Vector)
  {
    forall i :: 0 <= i < |rows| ==> |rows[i].embeddings| == |query|
  }

  function Score(row: IndexRow, query: Vector): real
    requires |row.embeddings| == |query|
  {
    Dot(row.embeddings, query)
  }

  function HitOf(row: IndexRow, query: Vector): Hit
    requires |row.embeddings| == |query|
  {
    Hit(row.chatId, row.text, Score(row, query))
  }

  /** The rows the threshold mask keeps, in table order. */
  function Passing(rows: seq<IndexRow>, query: Vector): (hits: seq<Hit>)
    requires ShapesMatch(rows, query)
    ensures |hits| <= |rows|
    ensures forall k :: 0 <= k < |hits| ==> hits[k].score >= SCORE_THRESHOLD
    ensures hits == [] <==> forall i :: 0 <= i < |rows| ==> Score(rows[i], query) < SCORE_THRESHOLD
    decreases |rows|
  {
    if rows == [] then []
    else
      var rest := Passing(rows[1..], query);
      assert forall i :: 1 <= i < |rows| ==> rows[i] == rows[1..][i - 1];
      if Score(rows[0], query) >= SCORE_THRESHOLD then [HitOf(rows[0], query)] + rest else rest
  }

  /** The mask works row by row: the hits of a table made of two parts are
      the hits of the first part followed by those of the second. With
      `PassingOneRow` this fixes the mask's result exactly: every row scoring
      at least 0.3 is kept once, in table order, and no other row is. */
  lemma {:induction false} PassingAppend(xs: seq<IndexRow>, ys: seq<IndexRow>, query: Vector)
    requires ShapesMatch(xs, query) && ShapesMatch(ys, query)
    ensures ShapesMatch(xs + ys, query)
    ensures Passing(xs + ys, query) == Passing(xs, query) + Passing(ys, query)
    decreases |xs|
  {
    ShapesMatchAppend(xs, ys, query);
    if xs == [] {
      assert xs + ys == ys;
    } else {
      var zs := xs + ys;
      assert zs[1..] == xs[1..] + ys;
      assert zs[0] == xs[0];
      PassingHead(xs, query);
      PassingAppend(xs[1..], ys, query);
      PassingHead(zs, query);
    }
  }

  lemma ShapesMatchAppend(xs: seq<IndexRow>, ys: seq<IndexRow>, query: Vector)
    requires ShapesMatch(xs, query) && ShapesMatch(ys, query)
    ensures ShapesMatch(xs + ys, query)
  {
    var zs := xs + ys;
    forall i | 0 <= i < |zs| ensures |zs[i].embeddings| == |query| {
      if i < |xs| {
        assert zs[i] == xs[i];
      } else {
        assert zs[i] == ys[i - |xs|];
      }
    }
  }

  /** The mask on a non-empty table: the first row's hit, if it passes, then
      the hits of the other rows. */
  lemma PassingHead(rows: seq<IndexRow>, query: Vector)
    requires ShapesMatch(rows, query) && rows != []
    ensures ShapesMatch(rows[1..], query)
    ensures Passing(rows, query) ==
              (if Score(rows[0], query) >= SCORE_THRESHOLD then [HitOf(rows[0], query)] else []) + Passing(rows[1..], query)
  {
  }

  /** A single row is kept, once, exactly when it scores at least 0.3. */
  lemma PassingOneRow(row: IndexRow, query: Vector)
    requires |row.embeddings| == |query|
    ensures Passing([row], query) == if Score(row, query) >= SCORE_THRESHOLD then [HitOf(row, query)] else []
  {
    assert [row][1..] == [];
  }

  /** Every hit the mask keeps is the hit of some table row. */
  lemma {:induction false} PassingComesFromRows(rows: seq<IndexRow>, query: Vector, k: nat)
    requires ShapesMatch(rows, query)
    requires k < |Passing(rows, query)|
    ensures exists i :: 0 <= i < |rows| && HitOf(rows[i], query) == Passing(rows, query)[k]
    decreases |rows|
  {
    var rest := Passing(rows[1..], query);
    if Score(rows[0], query) >= SCORE_THRESHOLD && k == 0 {
      assert HitOf(rows[0], query) == Passing(rows, query)[k];
    } else {
      var k' := if Score(rows[0], query) >= SCORE_THRESHOLD then k - 1 else k;
      assert Passing(rows, query)[k] == rest[k'];
      PassingComesFromRows(rows[1..], query, k');
      var i :| 0 <= i < |rows[1..]| && HitOf(rows[1..][i], query) == rest[k'];
      assert rows[1..][i] == rows[i + 1];
    }
  }

  /** Every table row scoring at least the threshold is kept. */
  lemma {:induction false} PassingKeepsQualifyingRows(rows: seq<IndexRow>, query: Vector, i: nat)
    requires ShapesMatch(rows, query)
    requires i < |rows| && Score(rows[i], query) >= SCORE_THRESHOLD
    ensures HitOf(rows[i], query) in Passing(rows, query)
    decreases |rows|
  {
    if i > 0 {
      assert rows[i] == rows[1..][i - 1];
      PassingKeepsQualifyingRows(rows[1..], query, i - 1);
    }
  }

  /** Scores never increase along `hits`. */
  predicate SortedDescending(hits: seq<Hit>)
  {
    forall i, j :: 0 <= i < j < |hits| ==> hits[i].score >= hits[j].score
  }

  /** A hit scoring at least the head of a descending list can go in front. */
  lemma ConsDescending(x: Hit, hits: seq<Hit>)
    requires SortedDescending(hits)
    requires hits != [] ==> x.score >= hits[0].score
    ensures SortedDescending([x] + hits)
  {
    var r := [x] + hits;
    forall i, j | 0 <= i < j < |r| ensures r[i].score >= r[j].score {
      if i > 0 {
        assert r[i] == hits[i - 1] && r[j] == hits[j - 1];
      } else if j > 1 {
        assert hits[0].score >= hits[j - 1].score;
      }
    }
  }

  /** Puts `h` into a descending sequence. */
  function InsertDescending(h: Hit, hits: seq<Hit>): (r: seq<Hit>)
    requires SortedDescending(hits)
    ensures SortedDescending(r)
    ensures multiset(r) == multiset(hits) + multiset{h}
    ensures |r| == |hits| + 1
    ensures r[0] == h || (hits != [] && r[0] == hits[0])
    decreases |hits|
  {
    if hits == [] then [h]
    else if h.score >= hits[0].score then
      ConsDescending(h, hits);
      [h] + hits
    else
      TailDescending(hits);
      var rest := InsertDescending(h, hits[1..]);
      InsertBehindHead(h, hits, rest);
      [hits[0]] + rest
  }

  /** When `h` scores below the head, the head stays in front of the list
      that `h` was inserted into. */
  lemma InsertBehindHead(h: Hit, hits: seq<Hit>, rest: seq<Hit>)
    requires hits != [] && h.score < hits[0].score && SortedDescending(hits)
    requires SortedDescending(rest) && |rest| == |hits|
    requires multiset(rest) == multiset(hits[1..]) + multiset{h}
    requires rest[0] == h || (|hits| > 1 && rest[0] == hits[1])
    ensures SortedDescending([hits[0]] + rest)
    ensures multiset([hits[0]] + rest) == multiset(hits) + multiset{h}
  {
    TailDescending(hits);
    ConsDescending(hits[0], rest);
    assert hits == [hits[0]] + hits[1..];
  }

  /** Dropping the head of a descending list leaves it descending; the head
      scores at least the new head. */
  lemma TailDescending(hits: seq<Hit>)
    requires SortedDescending(hits) && hits != []
    ensures SortedDescending(hits[1..])
    ensures |hits| > 1 ==> hits[0].score >= hits[1].score
  {
  }

  /** The hits ordered by descending score: `argsort` reversed. */
  function SortDescending(hits: seq<Hit>): (r: seq<Hit>)
    ensures SortedDescending(r)
    ensures multiset(r) == multiset(hits)
    decreases |hits|
  {
    if hits == [] then []
    else
      assert hits == [hits[0]] + hits[1..];
      InsertDescending(hits[0], SortDescending(hits[1..]))
  }

  /** Python's `s[:n]`: the first `n` elements, or, for a negative `n`, all
      but the last `-n`. */
  function SliceTo<T>(s: seq<T>, n: int): (r: seq<T>)
    ensures |r| <= |s| && r == s[..|r|]
    ensures n >= 0 ==> |r| == Min(n, |s|)
    ensures n < 0 ==> |r| == if |s| + n >= 0 then |s| + n else 0
  {
    if n >= 0 then s[..Min(n, |s|)]
    else s[..if |s| + n >= 0 then |s| + n else 0]
  }

  /** The three columns of a list of hits. */
  function Columns(hits: seq<Hit>): (r: TopTitles)
    ensures |r.chatIds| == |r.titles| == |r.scores| == |hits|
    ensures forall i :: 0 <= i < |hits| ==>
              r.chatIds[i] == hits[i].chatId && r.titles[i] == hits[i].text && r.scores[i] == hits[i].score
  {
    TopTitles(seq(|hits|, i requires 0 <= i < |hits| => hits[i].chatId),
              seq(|hits|, i requires 0 <= i < |hits| => hits[i].text),
              seq(|hits|, i requires 0 <= i < |hits| => hits[i].score))
  }

  predicate Aligned(r: TopTitles)
  {
    |r.chatIds| == |r.titles| == |r.scores|
  }

  /** The result rows, position by position. */
  function ResultHits(r: TopTitles): (hits: seq<Hit>)
    requires Aligned(r)
  {
    seq(|r.scores|, i requires 0 <= i < |r.scores| => Hit(r.chatIds[i], r.titles[i], r.scores[i]))
  }

  /** The hits the ranking returns: nothing on a shape mismatch or when no
      row passes the threshold, otherwise the passing rows by descending
      score, cut to `topN` with Python's slice semantics. */
  function RankedHits(rows: seq<IndexRow>, query: Vector, topN: int): seq<Hit>
  {
    if !ShapesMatch(rows, query) then []
    else
      var passing := Passing(rows, query);
      if |passing| == 0 then []
      else SliceTo(SortDescending(passing), topN)
  }

  lemma PrefixSortedDescending(hits: seq<Hit>, m: nat)
    requires SortedDescending(hits) && m <= |hits|
    ensures SortedDescending(hits[..m])
  {
  }

  lemma PrefixSubMultiset<T>(s: seq<T>, m: nat)
    requires m <= |s|
    ensures multiset(s[..m]) <= multiset(s)
    ensures multiset(s) - multiset(s[..m]) == multiset(s[m..])
  {
    assert s == s[..m] + s[m..];
  }

  /** Hits drawn from a list that passes the threshold pass it too. */
  lemma SubMultisetAboveThreshold(hits: seq<Hit>, from: seq<Hit>)
    requires multiset(hits) <= multiset(from)
    requires forall k :: 0 <= k < |from| ==> from[k].score >= SCORE_THRESHOLD
    ensures forall k :: 0 <= k < |hits| ==> hits[k].score >= SCORE_THRESHOLD
  {
    forall k | 0 <= k < |hits| ensures hits[k].score >= SCORE_THRESHOLD {
      assert hits[k] in multiset(from);
    }
  }

  /** What the ranking promises of its hits, before they are split into
      columns. */
  lemma RankedHitsFacts(rows: seq<IndexRow>, query: Vector, topN: int)
    ensures SortedDescending(RankedHits(rows, query, topN))
    ensures forall k :: 0 <= k < |RankedHits(rows, query, topN)| ==> RankedHits(rows, query, topN)[k].score >= SCORE_THRESHOLD
    ensures topN >= 0 ==> |RankedHits(rows, query, topN)| <= topN
    ensures !ShapesMatch(rows, query) ==> RankedHits(rows, query, topN) == []
    ensures ShapesMatch(rows, query) ==> multiset(RankedHits(rows, query, topN)) <= multiset(Passing(rows, query))
  {
    var hits := RankedHits(rows, query, topN);
    if !ShapesMatch(rows, query) || |Passing(rows, query)| == 0 {
      assert hits == [];
    } else {
      var passing := Passing(rows, query);
      var sorted := SortDescending(passing);
      assert hits == SliceTo(sorted, topN);
      assert hits == sorted[..|hits|];
      PrefixSortedDescending(sorted, |hits|);
      PrefixSubMultiset(sorted, |hits|);
      SubMultisetAboveThreshold(hits, passing);
    }
  }

  /** Ranking of the table against an already computed query vector. */
  function RankAgainst(rows: seq<IndexRow>, query: Vector, topN: int): (r: TopTitles)
    ensures Aligned(r)
    ensures topN >= 0 ==> |r.scores| <= topN
    ensures forall i :: 0 <= i < |r.scores| ==> r.scores[i] >= SCORE_THRESHOLD
    ensures forall i, j :: 0 <= i < j < |r.scores| ==> r.scores[i] >= r.scores[j]
    ensures !ShapesMatch(rows, query) ==> r == NO_RESULTS
    ensures ShapesMatch(rows, query) && (forall i :: 0 <= i < |rows| ==> Score(rows[i], query) < SCORE_THRESHOLD) ==>
              r == NO_RESULTS
  {
    RankedHitsFacts(rows, query, topN);
    Columns(RankedHits(rows, query, topN))
  }

  /** `calculate_top_titles`: embeds the query (given the outcome of that
      service call) and ranks the table against it. */
  function CalculateTopTitles(rows: seq<IndexRow>, queryOutcome: ServiceOutcome, topN: int): (r: TopTitles)
    ensures Aligned(r)
    ensures topN >= 0 ==> |r.scores| <= topN
    ensures forall i :: 0 <= i < |r.scores| ==> r.scores[i] >= SCORE_THRESHOLD
    ensures forall i, j :: 0 <= i < j < |r.scores| ==> r.scores[i] >= r.scores[j]
    ensures !ShapesMatch(rows, GenerateQueryEmbedding(queryOutcome)) ==> r == NO_RESULTS
  {
    RankAgainst(rows, GenerateQueryEmbedding(queryOutcome), topN)
  }

  /** Splitting hits into columns loses nothing: position `i` of the three
      columns is hit `i`. */
  lemma ColumnsRoundTrip(hits: seq<Hit>)
    ensures Aligned(Columns(hits)) && ResultHits(Columns(hits)) == hits
  {
  }

  /** Position `i` of the three result sequences comes from one and the same
      table row: its id, its text and its score against the query. */
  lemma RankedRowsComeFromTable(rows: seq<IndexRow>, query: Vector, topN: int, i: nat)
    requires i < |RankAgainst(rows, query, topN).scores|
    ensures ShapesMatch(rows, query)
    ensures exists j :: 0 <= j < |rows| &&
              rows[j].chatId == RankAgainst(rows, query, topN).chatIds[i] &&
              rows[j].text == RankAgainst(rows, query, topN).titles[i] &&
              Score(rows[j], query) == RankAgainst(rows, query, topN).scores[i]
  {
    var hits := RankedHits(rows, query, topN);
    RankedHitsFacts(rows, query, topN);
    var passing := Passing(rows, query);
    assert hits[i] in multiset(passing);
    var k :| 0 <= k < |passing| && passing[k] == hits[i];
    PassingComesFromRows(rows, query, k);
  }

  /** The number of results: the passing rows, cut as Python's `[:topN]`
      cuts them. */
  lemma RankedCount(rows: seq<IndexRow>, query: Vector, topN: int)
    requires ShapesMatch(rows, query)
    ensures var n, count := |Passing(rows, query)|, |RankAgainst(rows, query, topN).scores|;
            if topN >= 0 then count == Min(topN, n)
            else count == if n + topN >= 0 then n + topN else 0
  {
    var passing := Passing(rows, query);
    if |passing| > 0 {
      assert |SortDescending(passing)| == |passing| by {
        assert |multiset(SortDescending(passing))| == |multiset(passing)|;
      }
    }
  }

  /** When at most `topN` rows pass the threshold, the result holds exactly
      those rows, each once, in some order. */
  lemma AllPassingRowsReturned(rows: seq<IndexRow>, query: Vector, topN: int)
    requires ShapesMatch(rows, query)
    requires |Passing(rows, query)| <= topN
    ensures Aligned(RankAgainst(rows, query, topN))
    ensures multiset(ResultHits(RankAgainst(rows, query, topN))) == multiset(Passing(rows, query))
  {
    var passing := Passing(rows, query);
    var hits := RankedHits(rows, query, topN);
    ColumnsRoundTrip(hits);
    if |passing| > 0 {
      var sorted := SortDescending(passing);
      assert |sorted| == |passing| by {
        assert |multiset(sorted)| == |multiset(passing)|;
      }
      assert hits == sorted[..|sorted|] == sorted;
    }
  }

  /** In a descending list, whatever lies beyond the first `m` scores no
      higher than anything among them. */
  lemma SortedPrefixDominates(sorted: seq<Hit>, m: nat, left: Hit, i: nat)
    requires SortedDescending(sorted) && i < m <= |sorted|
    requires left in multiset(sorted) - multiset(sorted[..m])
    ensures left.score <= sorted[i].score
  {
    PrefixSubMultiset(sorted, m);
    assert left in multiset(sorted[m..]);
    var k :| 0 <= k < |sorted[m..]| && sorted[m..][k] == left;
    assert sorted[m + k] == left;
  }

  /** Truncation keeps the best: a passing row left out of the result scores
      no higher than any row in it. */
  lemma TruncationKeepsTheBest(rows: seq<IndexRow>, query: Vector, topN: int, left: Hit, i: nat)
    requires ShapesMatch(rows, query)
    requires Aligned(RankAgainst(rows, query, topN))
    requires left in multiset(Passing(rows, query)) - multiset(ResultHits(RankAgainst(rows, query, topN)))
    requires i < |RankAgainst(rows, query, topN).scores|
    ensures left.score <= RankAgainst(rows, query, topN).scores[i]
  {
    var passing := Passing(rows, query);
    var hits := RankedHits(rows, query, topN);
    ColumnsRoundTrip(hits);
    assert ResultHits(RankAgainst(rows, query, topN)) == hits;
    var sorted := SortDescending(passing);
    assert hits == sorted[..|hits|];
    SortedPrefixDominates(sorted, |hits|, left, i);
  }

  /** The dot product is a sum over positions: cutting both vectors at the
      same place splits it into the two partial sums. */
  lemma {:induction false} DotAppend(u: Vector, u': Vector, v: Vector, v': Vector)
    requires |u| == |v| && |u'| == |v'|
    ensures Dot(u + u', v + v') == Dot(u, v) + Dot(u', v')
    decreases |u|
  {
    if |u| == 0 {
      assert u + u' == u' && v + v' == v';
    } else {
      assert (u + u')[1..] == u[1..] + u' && (v + v')[1..] == v[1..] + v';
      DotAppend(u[1..], u', v[1..], v');
    }
  }

  /** Any vector scores 0 against the all-zero sentinel. */
  lemma {:induction false} DotWithZero(u: Vector, z: Vector)
    requires |u| == |z| && IsZero(z)
    ensures Dot(u, z) == 0.0
    decreases |u|
  {
    if |u| > 0 {
      DotWithZero(u[1..], z[1..]);
    }
  }

  /** A failed query embedding ranks nothing: the sentinel scores 0 against
      every row (below the threshold), and a row of another length makes the
      ranking fail; either way the result is empty. A response without any
      vector counts as a failed call. */
  lemma FailedQueryRanksNothing(rows: seq<IndexRow>, queryOutcome: ServiceOutcome, topN: int)
    requires queryOutcome.None? || queryOutcome.value == []
    ensures CalculateTopTitles(rows, queryOutcome, topN) == NO_RESULTS
  {
    var query := GenerateQueryEmbedding(queryOutcome);
    if ShapesMatch(rows, query) {
      forall i | 0 <= i < |rows| ensures Score(rows[i], query) < SCORE_THRESHOLD {
        DotWithZero(rows[i].embeddings, query);
      }
    }
  }

  lemma SeqOfThree<T>(s: seq<T>, x: T, y: T, z: T)
    requires |s| == 3 && s[0] == x && s[1] == y && s[2] == z
    ensures s == [x, y, z]
  {
  }

  /** Scores strictly decrease along `hits`: no two hits tie. */
  predicate StrictlyDescending(hits: seq<Hit>)
  {
    forall i, j :: 0 <= i < j < |hits| ==> hits[i].score > hits[j].score
  }

  /** Sorting a list whose scores strictly decrease leaves it as it is. (With
      ties the order the sort picks is not promised.) */
  lemma {:induction false} SortKeepsDescending(hits: seq<Hit>)
    requires StrictlyDescending(hits)
    ensures SortDescending(hits) == hits
    decreases |hits|
  {
    if hits != [] {
      SortKeepsDescending(hits[1..]);
      assert hits == [hits[0]] + hits[1..];
    }
  }

  /** A five-row table whose rows score 0.9, 0.4, 0.2, 0.31 and 0.05
      against the query `[1.0]`. */
  function ExampleTable(): seq<IndexRow>
  {
    [IndexRow("a", "alpha", [0.9]), IndexRow("b", "beta", [0.4]),
     IndexRow("c", "gamma", [0.2]), IndexRow("d", "delta", [0.31]),
     IndexRow("e", "epsilon", [0.05])]
  }

  lemma ExampleMask()
    ensures ShapesMatch(ExampleTable(), [1.0])
    ensures Passing(ExampleTable(), [1.0])
              == [Hit("a", "alpha", 0.9), Hit("b", "beta", 0.4), Hit("d", "delta", 0.31)]
  {
    var rows, query := ExampleTable(), [1.0];
    assert Score(rows[0], query) == 0.9 && Score(rows[1], query) == 0.4 && Score(rows[2], query) == 0.2;
    assert Score(rows[3], query) == 0.31 && Score(rows[4], query) == 0.05;
    var a, b, d := Hit("a", "alpha", 0.9), Hit("b", "beta", 0.4), Hit("d", "delta", 0.31);
    assert Passing(rows[4..], query) == [];
    assert rows[3..][1..] == rows[4..];
    assert Passing(rows[3..], query) == [d];
    assert rows[2..][1..] == rows[3..];
    assert Passing(rows[2..], query) == [d];
    assert rows[1..][1..] == rows[2..];
    assert Passing(rows[1..], query) == [b, d];
  }

  /** When the passing rows already have strictly decreasing scores and all
      fit, the ranking returns them as they are. */
  lemma RankedHitsOfDescendingPassing(rows: seq<IndexRow>, query: Vector, topN: int)
    requires ShapesMatch(rows, query)
    requires StrictlyDescending(Passing(rows, query))
    requires |Passing(rows, query)| <= topN
    ensures RankedHits(rows, query, topN) == Passing(rows, query)
  {
    SortKeepsDescending(Passing(rows, query));
  }

  lemma ExampleRanking()
    ensures RankedHits(ExampleTable(), [1.0], DEFAULT_TOP_N)
              == [Hit("a", "alpha", 0.9), Hit("b", "beta", 0.4), Hit("d", "delta", 0.31)]
  {
    ExampleMask();
    assert StrictlyDescending([Hit("a", "alpha", 0.9), Hit("b", "beta", 0.4), Hit("d", "delta", 0.31)]);
    RankedHitsOfDescendingPassing(ExampleTable(), [1.0], DEFAULT_TOP_N);
  }

  /** The three rows at or above 0.3 come back highest first; the two below
      are dropped. */
  lemma FiveRowExample()
    ensures CalculateTopTitles(ExampleTable(), Some([[1.0]]), DEFAULT_TOP_N)
              == TopTitles(["a", "b", "d"], ["alpha", "beta", "delta"], [0.9, 0.4, 0.31])
  {
    var hits := [Hit("a", "alpha", 0.9), Hit("b", "beta", 0.4), Hit("d", "delta", 0.31)];
    ExampleRanking();
    ExampleColumns(hits);
  }

  lemma ExampleColumns(hits: seq<Hit>)
    requires hits == [Hit("a", "alpha", 0.9), Hit("b", "beta", 0.4), Hit("d", "delta", 0.31)]
    ensures Columns(hits) == TopTitles(["a", "b", "d"], ["alpha", "beta", "delta"], [0.9, 0.4, 0.31])
  {
    var r := Columns(hits);
    SeqOfThree(r.chatIds, "a", "b", "d");
    SeqOfThree(r.titles, "alpha", "beta", "delta");
    SeqOfThree(r.scores, 0.9, 0.4, 0.31);
  }
}
