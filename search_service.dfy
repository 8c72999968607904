/**
 * SearchService: expands a query with associated words, scores every document retrieved for
 * those words by tf·idf, ranks the documents by score and groups them by URI.
 *
 * Scores are reals; the logarithm in idf is a parameter. The triple store is given by its
 * document count and its literal lookup, and the draft filter by a predicate on URIs.
 */
module SearchService {
  import opened KeywordText
  import opened Sequences

  /** A document hit of the triple store, compared by value. */
  datatype SearchResult = SearchResult(uri: string, title: string, description: string)

  /** An association record as the search reads it: a relevance in addition to key and value. */
  datatype TermAssociation = TermAssociation(key: string, value: string, relevance: real)

  /** Associations must be strictly more relevant than this to expand a query. */
  const ASSOCIATION_RELEVANCE_THRESHOLD: real := 2.7

  type Pos = n: int | n > 0 witness 1

  /**
   * What a search reads besides the query: the number of documents in the store, the store's
   * lookup of the documents holding a literal, the idf formula (Math.log of the document count
   * over the number of hits, whose second argument is never 0) and the ontology searcher's
   * keyword extraction.
   */
  datatype SearchContext = SearchContext(
    total: int,
    findByLiteral: string -> seq<SearchResult>,
    idf: (int, Pos) -> real,
    keywords: string -> seq<string>)

  /** The keyword extraction is the ontology searcher's, with its stopwords. */
  ghost predicate UsesSearcherKeywords(keywords: string -> seq<string>, stopWords: set<string>) {
    forall s :: keywords(s) == Keywords(s, stopWords)
  }

  /** The keywords of a document: those of its title and description run together. */
  function DocumentKeywords(result: SearchResult, keywords: string -> seq<string>): seq<string> {
    keywords(result.title + result.description)
  }

  /** countWordsIn: the number of keywords of a document. */
  function CountWordsIn(result: SearchResult, keywords: string -> seq<string>): nat {
    |DocumentKeywords(result, keywords)|
  }

  /**
   * With the searcher's keyword extraction, only a keyword — a letters-and-digits word of
   * more than three characters that is not a stopword — can occur in a document: any other
   * search word has term frequency 0.
   */
  lemma OnlyKeywordsOccur(result: SearchResult, word: string, keywords: string -> seq<string>, stopWords: set<string>)
    requires UsesSearcherKeywords(keywords, stopWords)
    requires !IsKeyword(word, stopWords)
    ensures Count(DocumentKeywords(result, keywords), word) == 0
  {
    var ks := Keywords(result.title + result.description, stopWords);
    assert DocumentKeywords(result, keywords) == ks;
    forall k | 0 <= k < |ks|
      ensures ks[k] != word
    {
      assert IsKeyword(ks[k], stopWords);
    }
  }

  /** countWordOccurenceIn: how many keywords of the document equal the search word. */
  method CountWordOccurenceIn(result: SearchResult, searchWord: string, keywords: string -> seq<string>) returns (count: nat)
    ensures count == Count(DocumentKeywords(result, keywords), searchWord)
    ensures count <= CountWordsIn(result, keywords)
    ensures count > 0 <==> searchWord in DocumentKeywords(result, keywords)
  {
    count := 0;
    var words := DocumentKeywords(result, keywords);
    for i := 0 to |words|
      invariant count == Count(words[..i], searchWord)
    {
      assert words[..i + 1] == words[..i] + [words[i]];
      if words[i] == searchWord {
        count := count + 1;
      }
    }
    assert words[..|words|] == words;
  }

  /** findAssociatedWords: the values of the associations above the relevance threshold. */
  method FindAssociatedWords(associations: seq<TermAssociation>) returns (words: set<string>)
    ensures forall w :: w in words <==>
              exists a :: a in associations && a.relevance > ASSOCIATION_RELEVANCE_THRESHOLD && a.value == w
  {
    words := {};
    for i := 0 to |associations|
      invariant forall w :: w in words <==>
                  exists a :: a in associations[..i] && a.relevance > ASSOCIATION_RELEVANCE_THRESHOLD && a.value == w
    {
      assert associations[..i + 1] == associations[..i] + [associations[i]];
      if associations[i].relevance > ASSOCIATION_RELEVANCE_THRESHOLD {
        words := words + {associations[i].value};
      }
    }
    assert associations[..|associations|] == associations;
  }

  /**
   * Every document retrieved for one of the words has at least one keyword, so that its term
   * frequency is a number (the source divides by the keyword count without a guard).
   */
  ghost predicate Guarded(words: seq<string>, ctx: SearchContext) {
    forall k, r :: 0 <= k < |words| && r in ctx.findByLiteral(words[k]) ==> CountWordsIn(r, ctx.keywords) > 0
  }

  /** The term frequency of a word in a document: its share of the document's keywords. */
  function Tf(result: SearchResult, word: string, keywords: string -> seq<string>): real
    requires CountWordsIn(result, keywords) > 0
  {
    (Count(DocumentKeywords(result, keywords), word) as real) / (CountWordsIn(result, keywords) as real)
  }

  /**
   * tf·idf of a word in a document. A document without keywords is given 0 here; the searches
   * this model proves things about are guarded against such documents.
   */
  function TfIdf(d: SearchResult, word: string, keywords: string -> seq<string>, idf: real): real {
    if CountWordsIn(d, keywords) > 0 then Tf(d, word, keywords) * idf else 0.0
  }

  /** t added once for each hit that is the document d. */
  function Repeated(hits: seq<SearchResult>, d: SearchResult, t: real): real {
    if hits == [] then 0.0
    else
      var n := |hits| - 1;
      Repeated(hits[..n], d, t) + (if hits[n] == d then t else 0.0)
  }

  /** Repeated, unfolded at one more hit. */
  lemma RepeatedStep(hits: seq<SearchResult>, j: nat, d: SearchResult, t: real)
    requires j < |hits|
    ensures Repeated(hits[..j + 1], d, t) == Repeated(hits[..j], d, t) + (if hits[j] == d then t else 0.0)
  {
    assert hits[..j + 1][..j] == hits[..j];
  }

  /** A document that is not among the hits gets nothing. */
  lemma {:induction false} RepeatedAbsent(hits: seq<SearchResult>, d: SearchResult, t: real)
    requires d !in hits
    ensures Repeated(hits, d, t) == 0.0
  {
    if hits != [] {
      var n := |hits| - 1;
      assert hits[n] in hits;
      assert d !in hits[..n];
      RepeatedAbsent(hits[..n], d, t);
    }
  }

  /**
   * What one word adds to a document's score: nothing when the lookup finds no document,
   * else tf·idf once for each time the lookup returned the document.
   */
  function Contribution(d: SearchResult, word: string, ctx: SearchContext): real {
    var results := ctx.findByLiteral(word);
    if |results| == 0 then 0.0
    else Repeated(results, d, TfIdf(d, word, ctx.keywords, ctx.idf(ctx.total, |results|)))
  }

  /** The score of a document after the given words: the sum of their contributions. */
  function Score(words: seq<string>, d: SearchResult, ctx: SearchContext): real {
    if words == [] then 0.0
    else Score(words[..|words| - 1], d, ctx) + Contribution(d, words[|words| - 1], ctx)
  }

  /** The documents some lookup of the words returned. */
  ghost predicate Retrieved(words: seq<string>, d: SearchResult, ctx: SearchContext) {
    exists k :: 0 <= k < |words| && d in ctx.findByLiteral(words[k])
  }

  /** Contributions from different words add up: the score over two word lists is the sum of the two scores. */
  lemma {:induction false} ScoreAppend(words: seq<string>, more: seq<string>, d: SearchResult, ctx: SearchContext)
    ensures Score(words + more, d, ctx) == Score(words, d, ctx) + Score(more, d, ctx)
  {
    if more != [] {
      var n := |more| - 1;
      assert (words + more)[..|words| + n] == words + more[..n];
      ScoreAppend(words, more[..n], d, ctx);
    } else {
      assert words + more == words;
    }
  }

  /** A document no lookup returned scores 0. */
  lemma {:induction false} ScoreNotRetrieved(words: seq<string>, d: SearchResult, ctx: SearchContext)
    requires !Retrieved(words, d, ctx)
    ensures Score(words, d, ctx) == 0.0
  {
    if words != [] {
      var n := |words| - 1;
      assert !Retrieved(words[..n], d, ctx) by {
        forall k | 0 <= k < n
          ensures d !in ctx.findByLiteral(words[..n][k])
        {
          assert words[..n][k] == words[k];
        }
      }
      ScoreNotRetrieved(words[..n], d, ctx);
      assert d !in ctx.findByLiteral(words[n]);
      if |ctx.findByLiteral(words[n])| > 0 {
        RepeatedAbsent(ctx.findByLiteral(words[n]), d, TfIdf(d, words[n], ctx.keywords, ctx.idf(ctx.total, |ctx.findByLiteral(words[n])|)));
      }
    }
  }

  /** The score a document had before a word was processed: 0 when it was not yet scored. */
  function Base(scores: map<SearchResult, real>, d: SearchResult): real {
    if d in scores then scores[d] else 0.0
  }

  /**
   * The search loop's body for one word: a word without hits is skipped; otherwise each hit
   * adds the word's tf·idf to the document's score, entering the document when it is new.
   */
  method AccumulateWord(scores: map<SearchResult, real>, word: string, ctx: SearchContext) returns (r: map<SearchResult, real>)
    requires forall d :: d in ctx.findByLiteral(word) ==> CountWordsIn(d, ctx.keywords) > 0
    ensures forall d :: d in r <==> d in scores || d in ctx.findByLiteral(word)
    ensures forall d :: d in r ==> r[d] == Base(scores, d) + Contribution(d, word, ctx)
  {
    r := scores;
    var results := ctx.findByLiteral(word);
    if |results| == 0 {
      return;
    }
    var idf := ctx.idf(ctx.total, |results|);
    for j := 0 to |results|
      invariant r == Accumulated(scores, results[..j], word, ctx.keywords, idf)
    {
      AccumulatedStep(scores, results, j, word, ctx.keywords, idf);
      assert results[j] in results;
      r := AddHit(r, results[j], word, ctx.keywords, idf);
    }
    assert results[..|results|] == results;
    AccumulatedWord(scores, word, ctx);
  }

  /** The inner loop over all of a word's hits adds exactly the word's contribution to each score. */
  lemma AccumulatedWord(scores: map<SearchResult, real>, word: string, ctx: SearchContext)
    requires |ctx.findByLiteral(word)| > 0
    ensures var results := ctx.findByLiteral(word);
            var r := Accumulated(scores, results, word, ctx.keywords, ctx.idf(ctx.total, |results|));
            && (forall d :: d in r <==> d in scores || d in results)
            && (forall d :: d in r ==> r[d] == Base(scores, d) + Contribution(d, word, ctx))
  {
    var results := ctx.findByLiteral(word);
    var idf := ctx.idf(ctx.total, |results|);
    AccumulatedScores(scores, results, word, ctx.keywords, idf);
    assert forall d :: Contribution(d, word, ctx) == Repeated(results, d, TfIdf(d, word, ctx.keywords, idf));
  }

  /** The score table after the inner loop has entered the given hits. */
  function Accumulated(scores: map<SearchResult, real>, hits: seq<SearchResult>, word: string,
                       keywords: string -> seq<string>, idf: real): map<SearchResult, real>
  {
    if hits == [] then scores
    else
      var n := |hits| - 1;
      var before := Accumulated(scores, hits[..n], word, keywords, idf);
      before[hits[n] := TfIdf(hits[n], word, keywords, idf) + Base(before, hits[n])]
  }

  /** Accumulated, unfolded at one more hit. */
  lemma AccumulatedStep(scores: map<SearchResult, real>, hits: seq<SearchResult>, j: nat, word: string,
                        keywords: string -> seq<string>, idf: real)
    requires j < |hits|
    ensures var before := Accumulated(scores, hits[..j], word, keywords, idf);
            Accumulated(scores, hits[..j + 1], word, keywords, idf) ==
              before[hits[j] := TfIdf(hits[j], word, keywords, idf) + Base(before, hits[j])]
  {
    assert hits[..j + 1][..j] == hits[..j];
  }

  /**
   * After the inner loop a document has a score when it had one or is a hit, and its score
   * grew by the word's tf·idf once for each time it was hit.
   */
  lemma {:induction false} AccumulatedScores(scores: map<SearchResult, real>, hits: seq<SearchResult>, word: string,
                                             keywords: string -> seq<string>, idf: real)
    ensures forall d :: d in Accumulated(scores, hits, word, keywords, idf) <==> d in scores || d in hits
    ensures forall d :: d in Accumulated(scores, hits, word, keywords, idf) ==>
              Accumulated(scores, hits, word, keywords, idf)[d] == Base(scores, d) + Repeated(hits, d, TfIdf(d, word, keywords, idf))
  {
    if hits != [] {
      var n := |hits| - 1;
      AccumulatedScores(scores, hits[..n], word, keywords, idf);
      var before := Accumulated(scores, hits[..n], word, keywords, idf);
      assert hits == hits[..n] + [hits[n]];
      var x := hits[n];
      if x !in before {
        RepeatedAbsent(hits[..n], x, TfIdf(x, word, keywords, idf));
      }
      forall d | d in Accumulated(scores, hits, word, keywords, idf)
        ensures Accumulated(scores, hits, word, keywords, idf)[d] == Base(scores, d) + Repeated(hits, d, TfIdf(d, word, keywords, idf))
      {
        RepeatedStep(hits, n, d, TfIdf(d, word, keywords, idf));
        assert hits[..n + 1] == hits;
      }
    }
  }

  /**
   * The inner loop's body for one hit: tf·idf of the word in the document, added to the
   * document's score when it has one.
   */
  method AddHit(scores: map<SearchResult, real>, result: SearchResult, word: string, keywords: string -> seq<string>, idf: real)
    returns (r: map<SearchResult, real>)
    requires CountWordsIn(result, keywords) > 0
    ensures r == scores[result := TfIdf(result, word, keywords, idf) + Base(scores, result)]
  {
    var resultWordCount := CountWordsIn(result, keywords);
    var resultMatchCount := CountWordOccurenceIn(result, word, keywords);
    var tf := (resultMatchCount as real) / (resultWordCount as real);
    var score := tf * idf;
    assert tf == Tf(result, word, keywords);
    assert score == TfIdf(result, word, keywords, idf);
    if result in scores {
      score := score + scores[result];
    }
    r := scores[result := score];
  }

  /**
   * The scoring loop of search: the score of every document retrieved for one of the words.
   * The words are the expanded query in the order its set is iterated.
   */
  method ScoreResults(words: seq<string>, ctx: SearchContext) returns (scores: map<SearchResult, real>)
    requires Guarded(words, ctx)
    ensures forall d :: d in scores <==> Retrieved(words, d, ctx)
    ensures forall d :: d in scores ==> scores[d] == Score(words, d, ctx)
  {
    scores := map[];
    for i := 0 to |words|
      invariant forall d :: d in scores <==> Retrieved(words[..i], d, ctx)
      invariant forall d :: d in scores ==> scores[d] == Score(words[..i], d, ctx)
    {
      ScoreStep(words, i, ctx);
      ghost var before := scores;
      scores := AccumulateWord(scores, words[i], ctx);
      forall d | d in scores
        ensures scores[d] == Score(words[..i + 1], d, ctx)
      {
        if d !in before {
          ScoreNotRetrieved(words[..i], d, ctx);
        }
      }
    }
    assert words[..|words|] == words;
  }

  /** The definitions of the score and of retrieval, unfolded at one more word. */
  lemma ScoreStep(words: seq<string>, i: nat, ctx: SearchContext)
    requires i < |words| && Guarded(words, ctx)
    ensures forall d :: d in ctx.findByLiteral(words[i]) ==> CountWordsIn(d, ctx.keywords) > 0
    ensures forall d :: Score(words[..i + 1], d, ctx) == Score(words[..i], d, ctx) + Contribution(d, words[i], ctx)
    ensures forall d :: Retrieved(words[..i + 1], d, ctx) <==> Retrieved(words[..i], d, ctx) || d in ctx.findByLiteral(words[i])
  {
    assert words[..i + 1][..i] == words[..i];
    forall d | Retrieved(words[..i + 1], d, ctx)
      ensures Retrieved(words[..i], d, ctx) || d in ctx.findByLiteral(words[i])
    {
      var k :| 0 <= k < i + 1 && d in ctx.findByLiteral(words[..i + 1][k]);
      if k < i {
        assert words[..i][k] == words[..i + 1][k];
      }
    }
    forall d | Retrieved(words[..i], d, ctx) || d in ctx.findByLiteral(words[i])
      ensures Retrieved(words[..i + 1], d, ctx)
    {
      if Retrieved(words[..i], d, ctx) {
        var k :| 0 <= k < i && d in ctx.findByLiteral(words[..i][k]);
        assert words[..i + 1][k] == words[..i][k];
      } else {
        assert words[..i + 1][i] == words[i];
      }
    }
  }

  /** The documents are ordered by non-increasing score. */
  ghost predicate RankedByScore(results: seq<SearchResult>, scores: map<SearchResult, real>) {
    forall i, j :: 0 <= i < j < |results| ==> results[i] in scores && results[j] in scores && scores[results[i]] >= scores[results[j]]
  }

  /**
   * sortSearchResultsByScores: sorts the list in place by descending score. The source uses
   * the library's stable merge sort; this is an insertion sort by adjacent swaps.
   */
  method SortSearchResultsByScores(results: array<SearchResult>, scores: map<SearchResult, real>)
    requires forall k :: 0 <= k < results.Length ==> results[k] in scores
    modifies results
    ensures multiset(results[..]) == multiset(old(results[..]))
    ensures RankedByScore(results[..], scores)
  {
    for i := 0 to results.Length
      invariant multiset(results[..]) == multiset(old(results[..]))
      invariant forall k :: 0 <= k < results.Length ==> results[k] in scores
      invariant RankedByScore(results[..i], scores)
    {
      InsertLast(results, scores, i);
    }
  }

  /** One pass of the insertion sort: moves results[i] left past every lower-scored document. */
  method InsertLast(results: array<SearchResult>, scores: map<SearchResult, real>, i: nat)
    requires i < results.Length
    requires forall k :: 0 <= k < results.Length ==> results[k] in scores
    requires RankedByScore(results[..i], scores)
    modifies results
    ensures multiset(results[..]) == multiset(old(results[..]))
    ensures forall k :: 0 <= k < results.Length ==> results[k] in scores
    ensures RankedByScore(results[..i + 1], scores)
  {
    var j := i;
    InsertionStart(results[..], scores, i);
    while j > 0 && scores[results[j - 1]] < scores[results[j]]
      invariant 0 <= j <= i
      invariant multiset(results[..]) == multiset(old(results[..]))
      invariant Inserting(results[..], scores, i, j)
    {
      ghost var before := results[..];
      results[j - 1], results[j] := results[j], results[j - 1];
      SwapStep(before, results[..], scores, i, j);
      j := j - 1;
    }
    InsertionDone(results[..], scores, i, j);
  }

  /**
   * The state of an insertion pass that has moved the element being inserted to position j:
   * every document has a score, and the first i + 1 are ranked except around position j.
   */
  ghost predicate Inserting(s: seq<SearchResult>, scores: map<SearchResult, real>, i: nat, j: nat) {
    && j <= i < |s|
    && (forall k :: 0 <= k < |s| ==> s[k] in scores)
    && (forall a, b :: 0 <= a < b <= i && b != j ==> scores[s[a]] >= scores[s[b]])
    && (0 < j < i ==> scores[s[j - 1]] >= scores[s[j + 1]])
  }

  /** An insertion pass starts from a ranked prefix with the element to insert at its end. */
  lemma InsertionStart(s: seq<SearchResult>, scores: map<SearchResult, real>, i: nat)
    requires i < |s| && (forall k :: 0 <= k < |s| ==> s[k] in scores)
    requires RankedByScore(s[..i], scores)
    ensures Inserting(s, scores, i, i)
  {
    forall a, b | 0 <= a < b <= i && b != i
      ensures scores[s[a]] >= scores[s[b]]
    {
      assert s[..i][a] == s[a] && s[..i][b] == s[b];
    }
  }

  /** Swapping the element being inserted with a lower-scored predecessor moves it one place left. */
  lemma SwapStep(before: seq<SearchResult>, after: seq<SearchResult>, scores: map<SearchResult, real>, i: nat, j: nat)
    requires 0 < j && Inserting(before, scores, i, j)
    requires scores[before[j - 1]] < scores[before[j]]
    requires after == before[j - 1 := before[j]][j := before[j - 1]]
    ensures multiset(after) == multiset(before)
    ensures Inserting(after, scores, i, j - 1)
  {
    SwapPermutes(before, j - 1, j);
    assert forall k :: 0 <= k < |after| ==> after[k] in scores;
    forall a, b | 0 <= a < b <= i && b != j - 1
      ensures scores[after[a]] >= scores[after[b]]
    {
      if b == j {
        if a < j - 1 {
          assert after[a] == before[a] && after[b] == before[j - 1];
          assert scores[before[a]] >= scores[before[j - 1]];
        }
      } else if a == j {
        assert after[a] == before[j - 1] && after[b] == before[b];
      } else if a == j - 1 {
        assert after[a] == before[j] && after[b] == before[b];
      } else {
        assert after[a] == before[a] && after[b] == before[b];
      }
    }
  }

  /** Exchanging two elements of a list permutes it. */
  lemma SwapPermutes<T>(s: seq<T>, x: nat, y: nat)
    requires x < y < |s|
    ensures multiset(s[x := s[y]][y := s[x]]) == multiset(s)
  {
    var t := s[x := s[y]][y := s[x]];
    assert s == s[..x] + [s[x]] + s[x + 1..y] + [s[y]] + s[y + 1..];
    assert t == s[..x] + [s[y]] + s[x + 1..y] + [s[x]] + s[y + 1..];
  }

  /** An insertion pass that stopped leaves the first i + 1 documents ranked. */
  lemma InsertionDone(s: seq<SearchResult>, scores: map<SearchResult, real>, i: nat, j: nat)
    requires Inserting(s, scores, i, j)
    requires j == 0 || scores[s[j - 1]] >= scores[s[j]]
    ensures RankedByScore(s[..i + 1], scores)
  {
    var t := s[..i + 1];
    forall a, b | 0 <= a < b < |t|
      ensures t[a] in scores && t[b] in scores && scores[t[a]] >= scores[t[b]]
    {
      if b == j && a < j - 1 {
        assert scores[s[a]] >= scores[s[j - 1]];
      }
    }
  }

  /** A group of the processed results: one URI and its documents, in ranking order. */
  datatype ResultGroup = ResultGroup(uri: string, members: seq<SearchResult>)

  /** The URIs of the documents, in order. */
  function Uris(results: seq<SearchResult>): (r: seq<string>)
    ensures |r| == |results| && forall k :: 0 <= k < |r| ==> r[k] == results[k].uri
  {
    if results == [] then [] else [results[0].uri] + Uris(results[1..])
  }

  /** The documents with a given URI, in order (Collectors.groupingBy into lists). */
  function WithUri(results: seq<SearchResult>, uri: string): (r: seq<SearchResult>)
    ensures forall d :: d in r <==> d in results && d.uri == uri
  {
    if results == [] then []
    else
      var last := results[|results| - 1];
      assert results == results[..|results| - 1] + [last];
      WithUri(results[..|results| - 1], uri) + (if last.uri == uri then [last] else [])
  }

  /** One group per URI of the list, kept when the URI passes the filter. */
  function GroupsOf(uris: seq<string>, results: seq<SearchResult>, usable: string -> bool): (r: seq<ResultGroup>)
    ensures |r| <= |uris|
    ensures forall g :: g in r ==> g.uri in uris && usable(g.uri) && g.members == WithUri(results, g.uri)
    ensures forall u :: u in uris && usable(u) ==> ResultGroup(u, WithUri(results, u)) in r
  {
    if uris == [] then []
    else
      var u := uris[|uris| - 1];
      assert uris == uris[..|uris| - 1] + [u];
      GroupsOf(uris[..|uris| - 1], results, usable) + (if usable(u) then [ResultGroup(u, WithUri(results, u))] else [])
  }


  /** GroupsOf handles the URIs one after the other. */
  lemma GroupsOfStep(uris: seq<string>, results: seq<SearchResult>, usable: string -> bool)
    requires uris != []
    ensures var u := uris[|uris| - 1];
            GroupsOf(uris, results, usable) ==
            GroupsOf(uris[..|uris| - 1], results, usable) + (if usable(u) then [ResultGroup(u, WithUri(results, u))] else [])
  {
  }

  /** The groups' URIs are a subsequence of the distinct URIs: those that pass the filter. */
  lemma {:induction false} GroupsOfOrder(uris: seq<string>, results: seq<SearchResult>, usable: string -> bool)
    ensures IsSubsequence(GroupUris(GroupsOf(uris, results, usable)), uris)
  {
    if uris != [] {
      var n := |uris| - 1;
      var u := uris[n];
      GroupsOfOrder(uris[..n], results, usable);
      GroupsOfStep(uris, results, usable);
      var g := GroupsOf(uris[..n], results, usable);
      var t := GroupUris(g);
      assert uris[..n] + [u] == uris;
      if usable(u) {
        var x := ResultGroup(u, WithUri(results, u));
        GroupUrisSnoc(g, x);
        SubsequenceSnoc(t, uris[..n], u);
      } else {
        assert GroupsOf(uris, results, usable) == g + [] == g;
        SubsequenceExtend(t, uris[..n], u);
      }
    }
  }

  /** Adding a group adds its URI. */
  lemma GroupUrisSnoc(groups: seq<ResultGroup>, x: ResultGroup)
    ensures GroupUris(groups + [x]) == GroupUris(groups) + [x.uri]
  {
    var l, r := GroupUris(groups + [x]), GroupUris(groups) + [x.uri];
    assert |l| == |r|;
    forall k | 0 <= k < |l| ensures l[k] == r[k] {
      if k < |groups| { assert (groups + [x])[k] == groups[k]; }
    }
  }

  /** The URIs of groups, in order. */
  function GroupUris(groups: seq<ResultGroup>): (r: seq<string>)
    ensures |r| == |groups| && forall k :: 0 <= k < |r| ==> r[k] == groups[k].uri
  {
    if groups == [] then [] else [groups[0].uri] + GroupUris(groups[1..])
  }

  /**
   * processSearchResults: the distinct URIs in order of first appearance, each that passes the
   * draft filter, grouped with all its documents.
   */
  function ProcessSearchResults(results: seq<SearchResult>, usable: string -> bool): (r: seq<ResultGroup>)
    ensures forall g :: g in r ==> g.uri in Uris(results) && usable(g.uri) && g.members == WithUri(results, g.uri)
    ensures forall u :: u in Uris(results) && usable(u) ==> ResultGroup(u, WithUri(results, u)) in r
    ensures Distinct(GroupUris(r))
    ensures forall i, j :: 0 <= i < j < |r| ==> FirstIndex(Uris(results), r[i].uri) < FirstIndex(Uris(results), r[j].uri)
  {
    var uris := Dedup(Uris(results));
    GroupsOfOrder(uris, results, usable);
    DedupFirstAppearance(Uris(results));
    SubsequenceKeepsOrder(GroupUris(GroupsOf(uris, results, usable)), uris, Uris(results));
    GroupsOf(uris, results, usable)
  }

  /** Every processed group has its own URI, passes the filter and holds at least one document of that URI. */
  lemma ProcessedGroups(results: seq<SearchResult>, usable: string -> bool)
    ensures Distinct(GroupUris(ProcessSearchResults(results, usable)))
    ensures forall g :: g in ProcessSearchResults(results, usable) ==>
              usable(g.uri) && g.members != [] && forall d :: d in g.members ==> d.uri == g.uri
  {
    forall g | g in ProcessSearchResults(results, usable) ensures g.members != [] {
      var k :| 0 <= k < |results| && Uris(results)[k] == g.uri;
      assert results[k] in g.members;
    }
  }

  /**
   * The score table's documents, sorted by their scores, are the retrieved documents, each
   * once, ordered by non-increasing score.
   */
  lemma RankingOfScores(keys: seq<SearchResult>, ranked: seq<SearchResult>, scores: map<SearchResult, real>,
                        words: seq<string>, ctx: SearchContext)
    requires Distinct(keys) && multiset(ranked) == multiset(keys)
    requires forall d :: d in keys <==> d in scores
    requires forall d :: d in scores <==> Retrieved(words, d, ctx)
    requires forall d :: d in scores ==> scores[d] == Score(words, d, ctx)
    requires RankedByScore(ranked, scores)
    ensures forall d :: d in ranked <==> Retrieved(words, d, ctx)
    ensures Distinct(ranked)
    ensures forall i, j :: 0 <= i < j < |ranked| ==> Score(words, ranked[i], ctx) >= Score(words, ranked[j], ctx)
  {
    forall d
      ensures d in ranked <==> d in keys
    {
      assert d in ranked <==> d in multiset(ranked);
      assert d in keys <==> d in multiset(keys);
    }
    DistinctPermutation(keys, ranked);
  }

  /**
   * search: expands the query with its associated words, scores the documents retrieved for
   * each, ranks them by descending score and groups the ranking by URI. The associations are
   * what the searcher's lookup returns for the query; the set of words and the score table are
   * visited in some order, given back as `order` and `ranked`.
   */
  method Search(associations: seq<TermAssociation>, ctx: SearchContext, usable: string -> bool)
    returns (groups: seq<ResultGroup>, ghost order: seq<string>, ghost ranked: seq<SearchResult>)
    requires forall a, d :: a in associations && a.relevance > ASSOCIATION_RELEVANCE_THRESHOLD && d in ctx.findByLiteral(a.value) ==>
               CountWordsIn(d, ctx.keywords) > 0
    ensures forall w :: w in order <==>
              exists a :: a in associations && a.relevance > ASSOCIATION_RELEVANCE_THRESHOLD && a.value == w
    ensures Distinct(order)
    ensures forall d :: d in ranked <==> Retrieved(order, d, ctx)
    ensures Distinct(ranked)
    ensures forall i, j :: 0 <= i < j < |ranked| ==> Score(order, ranked[i], ctx) >= Score(order, ranked[j], ctx)
    ensures groups == ProcessSearchResults(ranked, usable)
    ensures Distinct(GroupUris(groups))
    ensures forall g :: g in groups ==> usable(g.uri) && g.members != [] && forall d :: d in g.members ==> d.uri == g.uri
  {
    var words := FindAssociatedWords(associations);
    var wordList := SetToSeq(words);
    order := wordList;
    forall k, d | 0 <= k < |wordList| && d in ctx.findByLiteral(wordList[k])
      ensures CountWordsIn(d, ctx.keywords) > 0
    {
      assert wordList[k] in words;
    }
    var results := RankResults(wordList, ctx);
    ranked := results;
    groups := ProcessSearchResults(results, usable);
    ProcessedGroups(results, usable);
  }

  /**
   * The scoring and sorting steps of search: the score table of the words, its keys copied
   * into an array and sorted by descending score.
   */
  method RankResults(words: seq<string>, ctx: SearchContext) returns (ranked: seq<SearchResult>)
    requires Guarded(words, ctx)
    ensures forall d :: d in ranked <==> Retrieved(words, d, ctx)
    ensures Distinct(ranked)
    ensures forall i, j :: 0 <= i < j < |ranked| ==> Score(words, ranked[i], ctx) >= Score(words, ranked[j], ctx)
  {
    var resultScores := ScoreResults(words, ctx);
    var keys := SetToSeq(resultScores.Keys);
    var results := new SearchResult[|keys|](k requires 0 <= k < |keys| => keys[k]);
    assert results[..] == keys;
    SortSearchResultsByScores(results, resultScores);
    ranked := results[..];
    RankingOfScores(keys, ranked, resultScores, words, ctx);
  }
}
