/**
 * The keyword-overlap rule engine: a fault scores the share of its symptom
 * words that also occur among the query words, faults scoring above zero
 * are kept, and the kept results are ranked by score.
 */
module RuleEngine {
  import opened Wrappers
  import opened Text
  import opened Faults
  import opened Ranking

  /** The exceptions a malformed corpus record raises while it is scored or read. */
  datatype RuleError =
    | KeyError(key: string)   // a key the record lacks
    | TypeError               // `fault` holds something other than a mapping

  /** Python's `set(text.lower().split())`. */
  function WordSet(text: string): set<string> {
    set w | w in SplitWords(Lower(text))
  }

  /** The union of the sets `f(x)` over the elements `x` of `xs`. */
  function UnionOf<X>(xs: seq<X>, f: X -> set<string>): set<string> {
    if xs == [] then {} else UnionOf(xs[..|xs| - 1], f) + f(xs[|xs| - 1])
  }

  /** The words of all symptoms, lowercased and whitespace-split. */
  function SymptomWords(symptoms: seq<string>): set<string> {
    UnionOf(symptoms, WordSet)
  }

  /** The share of symptom words among the query words; 0 when there are no symptom words. */
  function Score(queryWords: set<string>, symptomWords: set<string>): real {
    if |symptomWords| > 0 then |queryWords * symptomWords| as real / |symptomWords| as real else 0.0
  }

  /** `_calculate_match_score` as a value: the score of a record, or the exception reading it raises. */
  function MatchScore(queryWords: set<string>, d: FaultDoc): Result<real, RuleError> {
    match d.fault
    case Missing => Failure(KeyError("fault"))
    case NotMapping => Failure(TypeError)
    case Entry(body) =>
      if body.symptoms.None? then Failure(KeyError("symptoms"))
      else Success(Score(queryWords, SymptomWords(body.symptoms.value)))
  }

  /** The result one record contributes to `process`: none when it scores 0. */
  function RuleResult(queryWords: set<string>, d: FaultDoc): Result<Option<Match>, RuleError> {
    match MatchScore(queryWords, d)
    case Failure(e) => Failure(e)
    case Success(score) =>
      if score <= 0.0 then Success(None)
      else if d.fault.body.name.None? then Failure(KeyError("name"))
      else if d.fault.body.causes.None? then Failure(KeyError("causes"))
      else Success(Some(Match(d.fault.body.name.value, score, d.fault.body.causes.value, "rule_engine", None, None)))
  }

  /**
   * Runs `f` over `xs` in order, keeping the present values; the first
   * failure is the outcome.
   */
  function Gather<X, Y, E>(f: X -> Result<Option<Y>, E>, xs: seq<X>): Result<seq<Y>, E> {
    if xs == [] then Success([])
    else match Gather(f, xs[..|xs| - 1])
      case Failure(e) => Failure(e)
      case Success(ys) =>
        match f(xs[|xs| - 1])
        case Failure(e) => Failure(e)
        case Success(None) => Success(ys)
        case Success(Some(y)) => Success(ys + [y])
  }

  function RuleOf(queryWords: set<string>): FaultDoc -> Result<Option<Match>, RuleError> {
    d => RuleResult(queryWords, d)
  }

  /** The unsorted results of a corpus, in corpus order; the first failing record decides the exception. */
  function Collect(queryWords: set<string>, docs: seq<FaultDoc>): Result<seq<Match>, RuleError> {
    Gather(RuleOf(queryWords), docs)
  }

  /** What `process` returns: the collected results ranked by confidence. */
  function Rank(query: string, docs: seq<FaultDoc>): Result<seq<Match>, RuleError> {
    match Collect(WordSet(query), docs)
    case Failure(e) => Failure(e)
    case Success(ms) => Success(SortDesc(ms, Confidence))
  }

  /** `_calculate_match_score`: gathers the symptom words one symptom at a time. */
  method CalculateMatchScore(queryWords: set<string>, d: FaultDoc) returns (r: Result<real, RuleError>)
    ensures r == MatchScore(queryWords, d)
  {
    if d.fault.Missing? {
      return Failure(KeyError("fault"));
    } else if d.fault.NotMapping? {
      return Failure(TypeError);
    }
    if d.fault.body.symptoms.None? {
      return Failure(KeyError("symptoms"));
    }
    var symptoms := d.fault.body.symptoms.value;
    var words: set<string> := {};
    var i := 0;
    while i < |symptoms|
      invariant 0 <= i <= |symptoms|
      invariant words == SymptomWords(symptoms[..i])
    {
      assert symptoms[..i + 1][..i] == symptoms[..i];
      words := words + WordSet(symptoms[i]);
      i := i + 1;
    }
    assert symptoms[..i] == symptoms;
    var matches := queryWords * words;
    if |words| > 0 {
      r := Success(|matches| as real / |words| as real);
    } else {
      r := Success(0.0);
    }
  }

  /** `process`: scores every record, keeps those above zero, then sorts by confidence. */
  method Process(query: string, docs: seq<FaultDoc>) returns (r: Result<seq<Match>, RuleError>)
    ensures r == Rank(query, docs)
  {
    var queryWords := WordSet(query);
    var results: seq<Match> := [];
    var i := 0;
    while i < |docs|
      invariant 0 <= i <= |docs|
      invariant Collect(queryWords, docs[..i]) == Success(results)
    {
      assert docs[..i + 1][..i] == docs[..i];
      var score := CalculateMatchScore(queryWords, docs[i]);
      if score.Failure? {
        GatherFailurePersists(RuleOf(queryWords), docs, i + 1);
        return Failure(score.error);
      }
      if score.value > 0.0 {
        var body := docs[i].fault.body;
        if body.name.None? {
          GatherFailurePersists(RuleOf(queryWords), docs, i + 1);
          return Failure(KeyError("name"));
        }
        if body.causes.None? {
          GatherFailurePersists(RuleOf(queryWords), docs, i + 1);
          return Failure(KeyError("causes"));
        }
        results := results + [Match(body.name.value, score.value, body.causes.value, "rule_engine", None, None)];
      }
      i := i + 1;
    }
    assert docs[..i] == docs;
    results := SortDesc(results, Confidence);
    r := Success(results);
  }

  /** Once a prefix fails, the whole sequence fails with the same error. */
  lemma {:induction false} GatherFailurePersists<X, Y, E>(f: X -> Result<Option<Y>, E>, xs: seq<X>, n: nat)
    requires n <= |xs| && Gather(f, xs[..n]).Failure?
    ensures Gather(f, xs) == Gather(f, xs[..n])
    decreases |xs| - n
  {
    if n < |xs| {
      assert xs[..n + 1][..n] == xs[..n];
      GatherFailurePersists(f, xs, n + 1);
    } else {
      assert xs[..n] == xs;
    }
  }

  /** `Gather` fails exactly when `f` fails on some element. */
  lemma {:induction false} GatherFails<X, Y, E>(f: X -> Result<Option<Y>, E>, xs: seq<X>)
    ensures Gather(f, xs).Failure? <==> exists i :: 0 <= i < |xs| && f(xs[i]).Failure?
  {
    if xs != [] {
      var init := xs[..|xs| - 1];
      GatherFails(f, init);
      if i :| 0 <= i < |init| && f(init[i]).Failure? {
        assert xs[i] == init[i];
      }
      if i :| 0 <= i < |xs| && f(xs[i]).Failure? {
        if i < |init| {
          assert init[i] == xs[i];
        }
      }
    }
  }

  /** How many elements `f` maps to a present value. */
  function CountPresent<X, Y, E>(f: X -> Result<Option<Y>, E>, xs: seq<X>): nat {
    if xs == [] then 0
    else CountPresent(f, xs[..|xs| - 1]) + (if f(xs[|xs| - 1]).Success? && f(xs[|xs| - 1]).value.Some? then 1 else 0)
  }

  /**
   * On success the outcome holds exactly the present values, one per
   * element with a present value.
   */
  lemma {:induction false} GatherResults<X, Y, E>(f: X -> Result<Option<Y>, E>, xs: seq<X>)
    requires Gather(f, xs).Success?
    ensures |Gather(f, xs).value| == CountPresent(f, xs)
    ensures forall y :: y in Gather(f, xs).value ==> exists i :: 0 <= i < |xs| && f(xs[i]) == Success(Some(y))
    ensures forall i :: 0 <= i < |xs| && f(xs[i]).Success? && f(xs[i]).value.Some? ==> f(xs[i]).value.value in Gather(f, xs).value
  {
    if xs != [] {
      var init, x := xs[..|xs| - 1], xs[|xs| - 1];
      GatherResults(f, init);
      var ys := Gather(f, init).value;
      var r := Gather(f, xs).value;
      assert forall i :: 0 <= i < |init| ==> xs[i] == init[i];
      forall y | y in r ensures exists i :: 0 <= i < |xs| && f(xs[i]) == Success(Some(y)) {
        if y !in ys {
          assert f(xs[|xs| - 1]) == Success(Some(y));
        }
      }
    }
  }

  /** The positions of the elements `f` maps to a present value, in order. */
  function PresentIndices<X, Y, E>(f: X -> Result<Option<Y>, E>, xs: seq<X>): seq<int> {
    if xs == [] then []
    else
      var last := if f(xs[|xs| - 1]).Success? && f(xs[|xs| - 1]).value.Some? then [|xs| - 1] else [];
      PresentIndices(f, xs[..|xs| - 1]) + last
  }

  /** The positions are increasing positions of `xs`, and every element with a present value has its own. */
  lemma {:induction false} PresentIndicesShape<X, Y, E>(f: X -> Result<Option<Y>, E>, xs: seq<X>)
    ensures var idx := PresentIndices(f, xs);
      && (forall j | 0 <= j < |idx| :: 0 <= idx[j] < |xs| && f(xs[idx[j]]).Success? && f(xs[idx[j]]).value.Some?)
      && (forall j, k | 0 <= j < k < |idx| :: idx[j] < idx[k])
      && (forall i | 0 <= i < |xs| && f(xs[i]).Success? && f(xs[i]).value.Some? :: i in idx)
  {
    if xs != [] {
      var init := xs[..|xs| - 1];
      PresentIndicesShape(f, init);
      assert forall i | 0 <= i < |init| :: xs[i] == init[i];
      var idx, idx0 := PresentIndices(f, xs), PresentIndices(f, init);
      assert idx[..|idx0|] == idx0;
      forall i | 0 <= i < |xs| && f(xs[i]).Success? && f(xs[i]).value.Some? ensures i in idx {
        if i < |init| {
          assert i in idx0;
        } else {
          assert idx[|idx| - 1] == i;
        }
      }
    }
  }

  /**
   * On success the outcome is the present values in the order of their
   * elements: the j-th value comes from the j-th element with a present
   * value.
   */
  lemma {:induction false} GatherOrder<X, Y, E>(f: X -> Result<Option<Y>, E>, xs: seq<X>)
    requires Gather(f, xs).Success?
    ensures var idx, ys := PresentIndices(f, xs), Gather(f, xs).value;
      && |idx| == |ys|
      && (forall j | 0 <= j < |idx| :: 0 <= idx[j] < |xs| && f(xs[idx[j]]) == Success(Some(ys[j])))
      && (forall j, k | 0 <= j < k < |idx| :: idx[j] < idx[k])
      && (forall i | 0 <= i < |xs| && f(xs[i]).Success? && f(xs[i]).value.Some? :: i in idx)
  {
    PresentIndicesShape(f, xs);
    if xs != [] {
      var init := xs[..|xs| - 1];
      GatherOrder(f, init);
      var idx, ys := PresentIndices(f, xs), Gather(f, xs).value;
      var idx0, ys0 := PresentIndices(f, init), Gather(f, init).value;
      forall j | 0 <= j < |idx0| ensures idx[j] == idx0[j] && ys[j] == ys0[j] && xs[idx0[j]] == init[idx0[j]] {
      }
    }
  }

  /** A word is in the union exactly when it is in the set of some element. */
  lemma {:induction false} UnionOfMembers<X>(xs: seq<X>, f: X -> set<string>, w: string)
    ensures w in UnionOf(xs, f) <==> exists k :: 0 <= k < |xs| && w in f(xs[k])
  {
    if xs != [] {
      var init := xs[..|xs| - 1];
      UnionOfMembers(init, f, w);
      if k :| 0 <= k < |init| && w in f(init[k]) {
        assert xs[k] == init[k];
      }
      if k :| 0 <= k < |xs| && w in f(xs[k]) {
        if k < |init| {
          assert init[k] == xs[k];
        }
      }
    }
  }

  lemma SubsetCardinality<T>(a: set<T>, b: set<T>)
    requires a <= b
    ensures |a| <= |b|
    ensures |a| == |b| ==> a == b
  {
    if a != b {
      assert !(b <= a);
      var x :| x in b && x !in a;
      assert a <= b - {x};
      SubsetCardinality(a, b - {x});
    }
  }

  /** The score is a proportion. */
  lemma ScoreBounds(queryWords: set<string>, symptomWords: set<string>)
    ensures 0.0 <= Score(queryWords, symptomWords) <= 1.0
  {
    SubsetCardinality(queryWords * symptomWords, symptomWords);
  }

  /** The score is 1 exactly when there are symptom words and every one of them is a query word. */
  lemma ScoreIsOne(queryWords: set<string>, symptomWords: set<string>)
    ensures Score(queryWords, symptomWords) == 1.0 <==> |symptomWords| > 0 && symptomWords <= queryWords
  {
    SubsetCardinality(queryWords * symptomWords, symptomWords);
    if |symptomWords| > 0 && symptomWords <= queryWords {
      assert queryWords * symptomWords == symptomWords;
    }
  }

  /** The score is positive exactly when the query shares a word with the symptoms. */
  lemma ScorePositive(queryWords: set<string>, symptomWords: set<string>)
    ensures Score(queryWords, symptomWords) > 0.0 <==> queryWords * symptomWords != {}
  {
    if queryWords * symptomWords != {} {
      var w :| w in queryWords * symptomWords;
      assert w in symptomWords;
    }
  }

  /** A word is a symptom word exactly when some symptom, lowercased and split, has it. */
  lemma SymptomWordsMembers(symptoms: seq<string>, w: string)
    ensures w in SymptomWords(symptoms) <==> exists k :: 0 <= k < |symptoms| && w in SplitWords(Lower(symptoms[k]))
  {
    UnionOfMembers(symptoms, WordSet, w);
  }

  /** Record `d` is well formed for `process`: it never raises on it. */
  predicate Readable(queryWords: set<string>, d: FaultDoc) {
    && d.fault.Entry? && d.fault.body.symptoms.Some?
    && (Score(queryWords, SymptomWords(d.fault.body.symptoms.value)) > 0.0 ==>
          d.fault.body.name.Some? && d.fault.body.causes.Some?)
  }

  /** Record `d` yields result `m`: same name and causes, confidence equal to its positive score. */
  predicate Yields(queryWords: set<string>, d: FaultDoc, m: Match) {
    && d.fault.Entry? && d.fault.body.symptoms.Some?
    && d.fault.body.name == Some(m.fault)
    && d.fault.body.causes == Some(m.causes)
    && m.confidence == Score(queryWords, SymptomWords(d.fault.body.symptoms.value)) > 0.0
    && m.source == "rule_engine" && m.sourceFile.None? && m.faultNumber.None?
  }

  /** One record: it raises exactly when it is not readable, and a result it yields is one it `Yields`. */
  lemma RuleResultCases(queryWords: set<string>, d: FaultDoc)
    ensures RuleResult(queryWords, d).Failure? <==> !Readable(queryWords, d)
    ensures RuleResult(queryWords, d).Success? && RuleResult(queryWords, d).value.Some? ==>
      Yields(queryWords, d, RuleResult(queryWords, d).value.value)
    ensures Readable(queryWords, d) && Score(queryWords, SymptomWords(d.fault.body.symptoms.value)) > 0.0 ==>
      RuleResult(queryWords, d).value.Some?
  {
    if d.fault.Entry? && d.fault.body.symptoms.Some? {
      var score := Score(queryWords, SymptomWords(d.fault.body.symptoms.value));
      assert MatchScore(queryWords, d) == Success(score);
    }
  }

  /**
   * `process` raises exactly when some record lacks `fault` or `symptoms`,
   * has a non-mapping `fault`, or scores above zero but lacks `name` or
   * `causes`.
   */
  lemma CollectFails(queryWords: set<string>, docs: seq<FaultDoc>)
    ensures Collect(queryWords, docs).Failure? <==> exists i :: 0 <= i < |docs| && !Readable(queryWords, docs[i])
  {
    GatherFails(RuleOf(queryWords), docs);
    forall i | 0 <= i < |docs| ensures RuleOf(queryWords)(docs[i]).Failure? <==> !Readable(queryWords, docs[i]) {
      RuleResultCases(queryWords, docs[i]);
    }
  }

  /**
   * On success every result is yielded by some record, and every record
   * with a positive score yields a result.
   */
  lemma CollectResults(queryWords: set<string>, docs: seq<FaultDoc>)
    requires Collect(queryWords, docs).Success?
    ensures forall m :: m in Collect(queryWords, docs).value ==>
      exists i :: 0 <= i < |docs| && Yields(queryWords, docs[i], m)
    ensures forall i :: (0 <= i < |docs| && docs[i].fault.Entry? && docs[i].fault.body.symptoms.Some?
                         && Score(queryWords, SymptomWords(docs[i].fault.body.symptoms.value)) > 0.0) ==>
      exists m :: m in Collect(queryWords, docs).value && Yields(queryWords, docs[i], m)
  {
    var f := RuleOf(queryWords);
    GatherResults(f, docs);
    GatherFails(f, docs);
    forall m | m in Collect(queryWords, docs).value
      ensures exists i :: 0 <= i < |docs| && Yields(queryWords, docs[i], m)
    {
      var i :| 0 <= i < |docs| && f(docs[i]) == Success(Some(m));
      RuleResultCases(queryWords, docs[i]);
    }
    forall i | 0 <= i < |docs| && docs[i].fault.Entry? && docs[i].fault.body.symptoms.Some?
      && Score(queryWords, SymptomWords(docs[i].fault.body.symptoms.value)) > 0.0
      ensures exists m :: m in Collect(queryWords, docs).value && Yields(queryWords, docs[i], m)
    {
      RuleResultCases(queryWords, docs[i]);
      assert f(docs[i]).Success?;
    }
  }

  /**
   * On success the results come in corpus order, one per record with a
   * positive score: the j-th result is yielded by the j-th such record.
   */
  lemma CollectOrder(queryWords: set<string>, docs: seq<FaultDoc>)
    requires Collect(queryWords, docs).Success?
    ensures var idx, ms := PresentIndices(RuleOf(queryWords), docs), Collect(queryWords, docs).value;
      && |idx| == |ms|
      && (forall j | 0 <= j < |idx| :: 0 <= idx[j] < |docs| && Yields(queryWords, docs[idx[j]], ms[j]))
      && (forall j, k | 0 <= j < k < |idx| :: idx[j] < idx[k])
      && (forall i | 0 <= i < |docs| && docs[i].fault.Entry? && docs[i].fault.body.symptoms.Some?
            && Score(queryWords, SymptomWords(docs[i].fault.body.symptoms.value)) > 0.0 :: i in idx)
  {
    var f := RuleOf(queryWords);
    GatherOrder(f, docs);
    GatherFails(f, docs);
    var idx, ms := PresentIndices(f, docs), Collect(queryWords, docs).value;
    forall j | 0 <= j < |idx| ensures Yields(queryWords, docs[idx[j]], ms[j]) {
      RuleResultCases(queryWords, docs[idx[j]]);
    }
    forall i | 0 <= i < |docs| && docs[i].fault.Entry? && docs[i].fault.body.symptoms.Some?
      && Score(queryWords, SymptomWords(docs[i].fault.body.symptoms.value)) > 0.0
      ensures i in idx
    {
      RuleResultCases(queryWords, docs[i]);
      assert f(docs[i]).Success?;
    }
  }

  /**
   * `process` ranks the collected results: non-increasing confidence, the
   * same results, and results of equal confidence in corpus order.
   */
  lemma RankCorrect(query: string, docs: seq<FaultDoc>)
    requires Rank(query, docs).Success?
    ensures Collect(WordSet(query), docs).Success?
    ensures SortedDesc(Rank(query, docs).value, Confidence)
    ensures multiset(Rank(query, docs).value) == multiset(Collect(WordSet(query), docs).value)
    ensures forall v :: WithKey(Rank(query, docs).value, Confidence, v) == WithKey(Collect(WordSet(query), docs).value, Confidence, v)
  {
    SortDescCorrect(Collect(WordSet(query), docs).value, Confidence);
  }

  /**
   * A well-formed record is returned exactly when the query shares a word
   * with its symptoms.
   */
  lemma ReturnedIffSharedWord(query: string, docs: seq<FaultDoc>, i: nat)
    requires Rank(query, docs).Success? && i < |docs|
    ensures docs[i].fault.Entry? && docs[i].fault.body.symptoms.Some?
    ensures (exists m :: m in Rank(query, docs).value && Yields(WordSet(query), docs[i], m))
      <==> WordSet(query) * SymptomWords(docs[i].fault.body.symptoms.value) != {}
  {
    var qw := WordSet(query);
    CollectFails(qw, docs);
    assert Readable(qw, docs[i]);
    CollectResults(qw, docs);
    SortDescMembers(Collect(qw, docs).value, Confidence);
    ScorePositive(qw, SymptomWords(docs[i].fault.body.symptoms.value));
  }

  /** Every returned confidence lies in (0, 1]. */
  lemma RankConfidences(query: string, docs: seq<FaultDoc>)
    requires Rank(query, docs).Success?
    ensures forall m :: m in Rank(query, docs).value ==> 0.0 < m.confidence <= 1.0 && m.source == "rule_engine"
  {
    var qw := WordSet(query);
    CollectResults(qw, docs);
    SortDescMembers(Collect(qw, docs).value, Confidence);
    forall m | m in Rank(query, docs).value ensures 0.0 < m.confidence <= 1.0 && m.source == "rule_engine" {
      var i :| 0 <= i < |docs| && Yields(qw, docs[i], m);
      ScoreBounds(qw, SymptomWords(docs[i].fault.body.symptoms.value));
    }
  }
}
