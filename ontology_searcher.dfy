/**
 * OntologySearcher: turns the labels of an ontology's classes into keyword counts and word
 * associations, stores them in two repositories, and expands a query with the words
 * associated to its keywords.
 *
 * An ontology is given as its classes, each as the values of its rdfs:label annotations; the
 * two repositories are the sequences of records they hold.
 */
module OntologySearcher {
  import opened Wrappers
  import opened JavaStrings
  import opened KeywordText
  import opened Sequences

  /** The value of an rdfs:label annotation: a literal in its rendered form, or an IRI or anonymous individual. */
  datatype AnnotationValue = Literal(rendering: string) | NonLiteral

  /** One class of the ontology: the values of its label annotations, in iteration order. */
  type OntologyClass = seq<AnnotationValue>

  /** A record of the association repository. */
  datatype WordAssociation = WordAssociation(key: string, value: string)

  /** A record of the word-count repository. */
  datatype WordCount = WordCount(word: string, count: nat)

  /** The keywords of one label annotation: those of its string literal's text, or none. */
  function AnnotationKeywords(a: AnnotationValue, stopWords: set<string>): seq<string> {
    match a
    case NonLiteral => []
    case Literal(rendering) =>
      match StringFromLiteral(rendering)
      case None => []
      case Some(text) => Keywords(text, stopWords)
  }

  /** The keywords of a class: those of its label annotations, one annotation after the other. */
  function ClassKeywords(annotations: OntologyClass, stopWords: set<string>): seq<string> {
    if annotations == [] then []
    else ClassKeywords(annotations[..|annotations| - 1], stopWords) + AnnotationKeywords(annotations[|annotations| - 1], stopWords)
  }

  /** The keywords of every class, one class after the other. */
  function AllKeywords(classes: seq<OntologyClass>, stopWords: set<string>): seq<string> {
    if classes == [] then []
    else AllKeywords(classes[..|classes| - 1], stopWords) + ClassKeywords(classes[|classes| - 1], stopWords)
  }

  /** The number of occurrences of each word of a list. */
  function Counts(words: seq<string>): (m: map<string, nat>)
    ensures forall w :: w in m <==> w in words
    ensures forall w :: w in m ==> m[w] == multiset(words)[w] >= 1
  {
    map w | w in words :: multiset(words)[w]
  }

  /** The count of a word in a table, 0 when the word is absent. */
  function CountOf(m: map<string, nat>, w: string): nat {
    if w in m then m[w] else 0
  }

  /** Adding a word to a list raises its count by one and leaves the others alone. */
  lemma CountsSnoc(words: seq<string>, w: string)
    ensures Counts(words + [w]) == Counts(words)[w := CountOf(Counts(words), w) + 1]
  {
    var before, after := Counts(words), Counts(words + [w]);
    var m := before[w := CountOf(before, w) + 1];
    assert multiset(words + [w]) == multiset(words) + multiset{w};
    forall x ensures x in after <==> x in m {
      assert x in words + [w] <==> x in words || x == w;
    }
    forall x | x in after ensures after[x] == m[x] {
      if x == w {
        assert after[x] == multiset(words)[x] + 1;
      } else {
        assert after[x] == multiset(words)[x];
      }
    }
  }

  /**
   * Summing the tables of two lists gives the table of the two lists put together: the
   * corpus-wide counts are the sums of the per-class counts.
   */
  lemma CountsConcat(a: seq<string>, b: seq<string>)
    ensures forall w :: w in Counts(a + b) <==> w in Counts(a) || w in Counts(b)
    ensures forall w :: w in Counts(a + b) ==> Counts(a + b)[w] == CountOf(Counts(a), w) + CountOf(Counts(b), w)
  {
    assert multiset(a + b) == multiset(a) + multiset(b);
  }

  /** A table summed as sumWordCounts does it, from the tables of two lists, is the table of the two lists together. */
  lemma SummedCounts(a: seq<string>, b: seq<string>, ma: map<string, nat>, mb: map<string, nat>, summed: map<string, nat>)
    requires ma == Counts(a) && mb == Counts(b)
    requires summed.Keys == ma.Keys + mb.Keys
    requires forall w :: w in mb ==> summed[w] == CountOf(ma, w) + mb[w]
    requires forall w :: w in ma && w !in mb ==> summed[w] == ma[w]
    ensures summed == Counts(a + b)
  {
    var both := Counts(a + b);
    CountsConcat(a, b);
    assert summed.Keys == both.Keys;
    forall w | w in summed ensures summed[w] == both[w] {
      if w !in mb {
        assert CountOf(mb, w) == 0;
      }
    }
  }

  /** Every association whose key and value both occur among the keywords of one of the classes. */
  ghost predicate CoOccur(classes: seq<OntologyClass>, stopWords: set<string>, a: WordAssociation) {
    && classes != []
    && (|| CoOccur(classes[..|classes| - 1], stopWords, a)
        || (a.key in ClassKeywords(classes[|classes| - 1], stopWords) && a.value in ClassKeywords(classes[|classes| - 1], stopWords)))
  }

  /** Every ordered pair of the words, a word paired with itself included. */
  function Pairs(words: set<string>): set<WordAssociation> {
    set key, value | key in words && value in words :: WordAssociation(key, value)
  }

  /**
   * The associations indexing produces, with their multiplicity: each class adds every
   * ordered pair of its distinct keywords once, so a pair recurs once per class holding both words.
   */
  ghost function PairBag(classes: seq<OntologyClass>, stopWords: set<string>): multiset<WordAssociation> {
    if classes == [] then multiset{}
    else
      PairBag(classes[..|classes| - 1], stopWords) + multiset(Pairs(Counts(ClassKeywords(classes[|classes| - 1], stopWords)).Keys))
  }

  function Square(n: nat): nat {
    n * n
  }

  /** The number of associations indexing produces: the square of each class's number of distinct keywords, summed. */
  ghost function PairCount(classes: seq<OntologyClass>, stopWords: set<string>): nat {
    if classes == [] then 0
    else
      PairCount(classes[..|classes| - 1], stopWords) + Square(|Counts(ClassKeywords(classes[|classes| - 1], stopWords)).Keys|)
  }

  /** The definitions of the indexing summaries, unfolded at one more class. */
  lemma IndexStep(classes: seq<OntologyClass>, i: nat, stopWords: set<string>)
    requires i < |classes|
    ensures AllKeywords(classes[..i + 1], stopWords) == AllKeywords(classes[..i], stopWords) + ClassKeywords(classes[i], stopWords)
    ensures PairCount(classes[..i + 1], stopWords) == PairCount(classes[..i], stopWords) + Square(|Counts(ClassKeywords(classes[i], stopWords)).Keys|)
    ensures PairBag(classes[..i + 1], stopWords) == PairBag(classes[..i], stopWords) + multiset(Pairs(Counts(ClassKeywords(classes[i], stopWords)).Keys))
    ensures forall a :: CoOccur(classes[..i + 1], stopWords, a) <==>
              CoOccur(classes[..i], stopWords, a) ||
              (a.key in ClassKeywords(classes[i], stopWords) && a.value in ClassKeywords(classes[i], stopWords))
  {
    assert classes[..i + 1][..i] == classes[..i];
  }

  /** The records of a word-count table: one per word, with its count. */
  ghost predicate IsCountTable(records: seq<WordCount>, m: map<string, nat>) {
    && |records| == |m|
    && (forall r :: r in records ==> r.word in m && r.count == m[r.word])
    && (forall w :: w in m ==> WordCount(w, m[w]) in records)
  }

  /** What indexing an ontology adds to the two repositories. */
  ghost predicate IndexedFrom(oldAssociations: seq<WordAssociation>, oldWordCounts: seq<WordCount>,
                              associations: seq<WordAssociation>, wordCounts: seq<WordCount>,
                              classes: seq<OntologyClass>, stopWords: set<string>)
  {
    && |associations| == |oldAssociations| + PairCount(classes, stopWords)
    && associations[..|oldAssociations|] == oldAssociations
    && (forall a :: a in associations[|oldAssociations|..] <==> CoOccur(classes, stopWords, a))
    && multiset(associations[|oldAssociations|..]) == PairBag(classes, stopWords)
    && |wordCounts| >= |oldWordCounts|
    && wordCounts[..|oldWordCounts|] == oldWordCounts
    && IsCountTable(wordCounts[|oldWordCounts|..], Counts(AllKeywords(classes, stopWords)))
  }

  /** The associations of a repository stored under a key. */
  function FindByKey(associations: seq<WordAssociation>, key: string): (r: seq<WordAssociation>)
    ensures forall a :: a in r <==> a in associations && a.key == key
  {
    if associations == [] then []
    else
      var last := associations[|associations| - 1];
      assert associations == associations[..|associations| - 1] + [last];
      FindByKey(associations[..|associations| - 1], key) + (if last.key == key then [last] else [])
  }

  /** The values of a list of associations. */
  function Values(found: seq<WordAssociation>): set<string> {
    set a | a in found :: a.value
  }

  /** getExtendedKeywords' inner loop: adds the value of each association found. */
  method AddValues(keys: set<string>, found: seq<WordAssociation>) returns (r: set<string>)
    ensures r == keys + Values(found)
  {
    r := keys;
    for j := 0 to |found|
      invariant r == keys + Values(found[..j])
    {
      assert found[..j + 1] == found[..j] + [found[j]];
      r := r + {found[j].value};
    }
    assert found[..|found|] == found;
  }

  /** The words a query expands to: each keyword, then the values stored under it. */
  function Extended(words: seq<string>, associations: seq<WordAssociation>): set<string> {
    if words == [] then {}
    else
      var word := words[|words| - 1];
      Extended(words[..|words| - 1], associations) + {word} + Values(FindByKey(associations, word))
  }

  /** Extended, unfolded at one more word. */
  lemma ExtendedStep(words: seq<string>, i: nat, associations: seq<WordAssociation>)
    requires i < |words|
    ensures Extended(words[..i + 1], associations) ==
              Extended(words[..i], associations) + {words[i]} + Values(FindByKey(associations, words[i]))
  {
    assert words[..i + 1][..i] == words[..i];
  }

  /** A word is in the expansion exactly when it is a keyword or the value of an association keyed by a keyword. */
  lemma {:induction false} ExtendedMembers(words: seq<string>, associations: seq<WordAssociation>)
    ensures forall w :: w in Extended(words, associations) <==>
              w in words || exists a :: a in associations && a.key in words && a.value == w
  {
    if words != [] {
      var init := words[..|words| - 1];
      var word := words[|words| - 1];
      ExtendedMembers(init, associations);
      assert words == init + [word];
      forall w | w in Extended(words, associations)
        ensures w in words || exists a :: a in associations && a.key in words && a.value == w
      {
        if w in Values(FindByKey(associations, word)) {
          var a :| a in FindByKey(associations, word) && a.value == w;
          assert a in associations && a.key in words;
        }
      }
      forall w | exists a :: a in associations && a.key in words && a.value == w
        ensures w in Extended(words, associations)
      {
        var a :| a in associations && a.key in words && a.value == w;
        if a.key == word {
          assert a in FindByKey(associations, word);
        } else {
          assert a.key in init;
        }
      }
    }
  }

  /** wordWithoutPunctuation: builds the word from the letters and digits of s. */
  method WordWithoutPunctuation(s: string) returns (r: string)
    ensures r == LettersAndDigits(s)
  {
    r := "";
    for i := 0 to |s|
      invariant r == LettersAndDigits(s[..i])
    {
      assert s[..i + 1][..i] == s[..i];
      if IsLetterOrDigit(s[i]) {
        r := r + [s[i]];
      }
    }
    assert s[..|s|] == s;
  }

  lemma CountStep(seen: seq<string>, words: seq<string>, j: nat)
    requires j < |words|
    ensures Counts(seen + words[..j + 1]) == Counts(seen + words[..j])[words[j] := CountOf(Counts(seen + words[..j]), words[j]) + 1]
  {
    assert seen + words[..j + 1] == (seen + words[..j]) + [words[j]];
    CountsSnoc(seen + words[..j], words[j]);
  }

  /** getClassWordCounts' inner loop: raises the count of each word of the list by one per occurrence. */
  method AddCounts(counts: map<string, nat>, ghost seen: seq<string>, words: seq<string>) returns (r: map<string, nat>)
    requires counts == Counts(seen)
    ensures r == Counts(seen + words)
  {
    r := counts;
    for j := 0 to |words|
      invariant r == Counts(seen + words[..j])
    {
      var word := words[j];
      var count := 0;
      if word in r {
        count := r[word];
      }
      count := count + 1;
      CountStep(seen, words, j);
      r := r[word := count];
    }
    assert words[..|words|] == words;
  }

  /** The inner loop of makeWordAssociations: the keyword paired with every word. */
  method PairWithAll(keyword: string, words: set<string>) returns (pairs: seq<WordAssociation>)
    ensures |pairs| == |words|
    ensures forall a :: a in pairs <==> a.key == keyword && a.value in words
    ensures Distinct(pairs)
  {
    pairs := [];
    var inner := words;
    while inner != {}
      invariant inner <= words
      invariant |pairs| == |words - inner|
      invariant forall a :: a in pairs <==> a.key == keyword && a.value in words - inner
      invariant Distinct(pairs)
      decreases inner
    {
      var word :| word in inner;
      assert words - (inner - {word}) == (words - inner) + {word};
      pairs := pairs + [WordAssociation(keyword, word)];
      inner := inner - {word};
    }
  }

  /** Two lists with no element in common and no repetition make a list with no repetition. */
  lemma DistinctConcat<T>(xs: seq<T>, ys: seq<T>)
    requires Distinct(xs) && Distinct(ys)
    requires forall x :: x in xs ==> x !in ys
    ensures Distinct(xs + ys)
  {
    forall i, j | 0 <= i < j < |xs + ys|
      ensures (xs + ys)[i] != (xs + ys)[j]
    {
      if j < |xs| {
      } else if i >= |xs| {
        assert (xs + ys)[i] == ys[i - |xs|];
      } else {
        assert (xs + ys)[i] in xs;
      }
    }
  }

  /** makeWordAssociations: every ordered pair of the words, a word paired with itself included. */
  method MakeWordAssociations(words: set<string>) returns (associations: seq<WordAssociation>)
    ensures |associations| == |words| * |words|
    ensures forall a :: a in associations <==> a.key in words && a.value in words
    ensures Distinct(associations)
    ensures multiset(associations) == multiset(Pairs(words))
  {
    associations := [];
    var outer := words;
    while outer != {}
      invariant outer <= words
      invariant |associations| == |words - outer| * |words|
      invariant forall a :: a in associations <==> a.key in words - outer && a.value in words
      invariant Distinct(associations)
      decreases outer
    {
      var keyword :| keyword in outer;
      var pairs := PairWithAll(keyword, words);
      DistinctConcat(associations, pairs);
      associations := associations + pairs;
      assert words - (outer - {keyword}) == (words - outer) + {keyword};
      outer := outer - {keyword};
    }
    forall a
      ensures a in associations <==> a in Pairs(words)
    {
      if a.key in words && a.value in words {
        assert a == WordAssociation(a.key, a.value);
      }
    }
    DistinctMultiset(associations, Pairs(words));
  }

  /** sumWordCounts: adds each new count to the running total of its word. */
  method SumWordCounts(wordCounts: map<string, nat>, newWordCounts: map<string, nat>) returns (summed: map<string, nat>)
    ensures summed.Keys == wordCounts.Keys + newWordCounts.Keys
    ensures forall w :: w in newWordCounts ==> summed[w] == CountOf(wordCounts, w) + newWordCounts[w]
    ensures forall w :: w in wordCounts && w !in newWordCounts ==> summed[w] == wordCounts[w]
  {
    summed := wordCounts;
    var remaining := newWordCounts.Keys;
    while remaining != {}
      invariant remaining <= newWordCounts.Keys
      invariant summed.Keys == wordCounts.Keys + (newWordCounts.Keys - remaining)
      invariant forall w :: w in newWordCounts.Keys - remaining ==> summed[w] == CountOf(wordCounts, w) + newWordCounts[w]
      invariant forall w :: w in wordCounts && w !in newWordCounts.Keys - remaining ==> summed[w] == wordCounts[w]
      decreases remaining
    {
      var word :| word in remaining;
      var count := newWordCounts[word];
      if word in summed {
        count := count + summed[word];
      }
      summed := summed[word := count];
      remaining := remaining - {word};
    }
  }

  /** insertWordCounts (before the repository write): one record per entry of the table. */
  method WordCountRecords(wordCounts: map<string, nat>) returns (records: seq<WordCount>)
    ensures IsCountTable(records, wordCounts)
  {
    records := [];
    var remaining := wordCounts.Keys;
    ghost var done: set<string> := {};
    while remaining != {}
      invariant done + remaining == wordCounts.Keys && done !! remaining
      invariant |records| == |done|
      invariant forall r :: r in records ==> r.word in done && r.count == wordCounts[r.word]
      invariant forall w :: w in done ==> WordCount(w, wordCounts[w]) in records
      decreases remaining
    {
      var word :| word in remaining;
      records := records + [WordCount(word, wordCounts[word])];
      remaining := remaining - {word};
      done := done + {word};
    }
    assert done == wordCounts.Keys;
  }

  class OntologySearcher {
    /** The stopword list, read once when the searcher is created. */
    const stopWords: set<string>
    /** The contents of the association repository. */
    var associations: seq<WordAssociation>
    /** The contents of the word-count repository. */
    var wordCounts: seq<WordCount>

    constructor(stopWords: set<string>, associations: seq<WordAssociation>, wordCounts: seq<WordCount>)
      ensures this.stopWords == stopWords
      ensures this.associations == associations && this.wordCounts == wordCounts
    {
      this.stopWords := stopWords;
      this.associations := associations;
      this.wordCounts := wordCounts;
    }

    /** getKeywordsFromString: the keywords of the input, token by token. */
    method GetKeywordsFromString(input: string) returns (result: seq<string>)
      ensures result == Keywords(input, stopWords)
    {
      result := [];
      var tokens := Split(ToLower(input), ' ');
      for i := 0 to |tokens|
        invariant result == FilterTokens(tokens[..i], stopWords)
      {
        FilterTokensStep(tokens, i, stopWords);
        var word := WordWithoutPunctuation(tokens[i]);
        if word !in stopWords && |word| > 3 {
          result := result + [word];
        }
      }
      assert tokens[..|tokens|] == tokens;
    }

    /** getClassWordCounts: how often each keyword occurs in the string labels of a class. */
    method GetClassWordCounts(annotations: OntologyClass) returns (counts: map<string, nat>)
      ensures counts == Counts(ClassKeywords(annotations, stopWords))
    {
      counts := map[];
      ghost var seen: seq<string> := [];
      for i := 0 to |annotations|
        invariant seen == ClassKeywords(annotations[..i], stopWords)
        invariant counts == Counts(seen)
      {
        assert annotations[..i + 1][..i] == annotations[..i];
        var words: seq<string> := [];
        if annotations[i].Literal? {
          var optionalText := StringFromLiteral(annotations[i].rendering);
          if optionalText.Some? {
            words := GetKeywordsFromString(optionalText.value);
          }
        }
        assert words == AnnotationKeywords(annotations[i], stopWords);
        counts := AddCounts(counts, seen, words);
        seen := seen + words;
      }
      assert annotations[..|annotations|] == annotations;
    }

    /**
     * indexOntology's loop: the associations and the summed keyword counts of all classes,
     * before they are stored.
     */
    method IndexClasses(classes: seq<OntologyClass>) returns (batch: seq<WordAssociation>, totals: map<string, nat>)
      ensures |batch| == PairCount(classes, stopWords)
      ensures forall a :: a in batch <==> CoOccur(classes, stopWords, a)
      ensures multiset(batch) == PairBag(classes, stopWords)
      ensures totals == Counts(AllKeywords(classes, stopWords))
    {
      batch := [];
      totals := map[];
      for i := 0 to |classes|
        invariant |batch| == PairCount(classes[..i], stopWords)
        invariant forall a :: a in batch <==> CoOccur(classes[..i], stopWords, a)
        invariant multiset(batch) == PairBag(classes[..i], stopWords)
        invariant totals == Counts(AllKeywords(classes[..i], stopWords))
      {
        IndexStep(classes, i, stopWords);
        var newWordCounts := GetClassWordCounts(classes[i]);
        var pairs := MakeWordAssociations(newWordCounts.Keys);
        batch := batch + pairs;
        ghost var before := totals;
        totals := SumWordCounts(totals, newWordCounts);
        SummedCounts(AllKeywords(classes[..i], stopWords), ClassKeywords(classes[i], stopWords), before, newWordCounts, totals);
      }
      assert classes[..|classes|] == classes;
    }

    /**
     * indexOntology: counts the keywords of every class, pairs up each class's distinct
     * keywords, and stores all associations and the corpus-wide counts.
     */
    method IndexOntology(classes: seq<OntologyClass>)
      modifies this
      ensures IndexedFrom(old(associations), old(wordCounts), associations, wordCounts, classes, stopWords)
    {
      var batch, totals := IndexClasses(classes);
      associations := associations + batch;
      assert associations[|old(associations)|..] == batch;
      var records := WordCountRecords(totals);
      wordCounts := wordCounts + records;
      assert wordCounts[|old(wordCounts)|..] == records;
    }

    /**
     * The start-up hook: index the thesaurus only when the association repository is empty.
     * None stands for a download or parse failure, which is logged and leaves both repositories as they were.
     */
    method Init(thesaurus: Option<seq<OntologyClass>>)
      modifies this
      ensures old(associations) != [] || thesaurus.None? ==>
                associations == old(associations) && wordCounts == old(wordCounts)
      ensures old(associations) == [] && thesaurus.Some? ==>
                IndexedFrom(old(associations), old(wordCounts), associations, wordCounts, thesaurus.value, stopWords)
    {
      if |associations| == 0 {
        if thesaurus.Some? {
          IndexOntology(thesaurus.value);
        }
      }
    }

    /** getExtendedKeywords: the keywords of the input and every word associated with one of them. */
    method GetExtendedKeywords(input: string) returns (keys: set<string>)
      ensures keys == Extended(Keywords(input, stopWords), associations)
      ensures forall w :: w in keys <==>
                w in Keywords(input, stopWords) ||
                exists a :: a in associations && a.key in Keywords(input, stopWords) && a.value == w
    {
      var words := GetKeywordsFromString(input);
      keys := {};
      for i := 0 to |words|
        invariant keys == Extended(words[..i], associations)
      {
        ExtendedStep(words, i, associations);
        keys := keys + {words[i]};
        var found := FindByKey(associations, words[i]);
        keys := AddValues(keys, found);
      }
      assert words[..|words|] == words;
      ExtendedMembers(words, associations);
    }
  }
}
