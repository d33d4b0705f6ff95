/**
 * The hybrid engine: it runs the rule and the semantic engines, decides
 * whether the query is about equipment the fault database does not cover
 * (and with what confidence penalty), and fuses the two result lists into
 * at most five results, boosting faults both engines found.
 *
 * The two engines are not called here: their outcomes are parameters,
 * `None` standing for an engine call that raised (the hybrid engine turns
 * that into an empty list).
 */
module HybridEngine {
  import opened Wrappers
  import opened Text
  import opened Faults
  import opened Ranking
  import opened Dicts

  /** Equipment and systems the engine fault database may not cover, in scan order, group by group. */
  const SpecificEquipment: seq<string> :=
    WaterSystems + Propulsion + DeckEquipment + Navigation + Accommodation + Sanitation
    + Spaces + SpecificSystems + SafetySystems + CargoSystems

  const WaterSystems: seq<string> :=
    ["seawater", "sea water", "raw water", "ballast", "bilge", "freshwater", "potable water"]
  const Propulsion: seq<string> :=
    ["stern tube", "propeller shaft", "rudder", "thruster", "bow thruster", "azimuth"]
  const DeckEquipment: seq<string> :=
    ["winch", "crane", "windlass", "mooring", "anchor", "davit", "hatch", "ramp"]
  const Navigation: seq<string> :=
    ["radar", "sonar", "gps", "compass", "autopilot", "gyro", "ecdis", "vhf", "radio"]
  const Accommodation: seq<string> :=
    ["ventilation", "hvac", "air conditioning", "galley", "accommodation", "cabin"]
  const Sanitation: seq<string> :=
    ["sewage", "waste", "incinerator", "garbage", "sanitary", "black water", "grey water"]
  const Spaces: seq<string> :=
    ["deck", "hull", "superstructure", "mast", "bridge", "engine room", "workshop",
     "cargo hold", "tank", "void space", "cofferdams"]
  const SpecificSystems: seq<string> :=
    ["hydraulic", "pneumatic", "oily water separator", "ows", "sewage treatment",
     "reverse osmosis", "ro plant", "fresh water generator", "fwg"]
  const SafetySystems: seq<string> :=
    ["fire", "sprinkler", "foam", "co2", "lifeboat", "life raft", "emergency",
     "alarm system", "public address", "pa system"]
  const CargoSystems: seq<string> :=
    ["loading", "unloading", "cargo pump", "manifold", "pipeline"]

  /** Words that suggest a problem outside the engine, in scan order. */
  const NonEngineIndicators: seq<string> := [
    "room", "space", "area", "compartment", "leak", "leakage", "flooding",
    "fire", "smoke detector", "alarm", "safety", "emergency", "spill"]

  /** Indicators never reported, because they can be engine-related. */
  const EngineRelated: seq<string> := ["alarm"]

  const Suggestion: string :=
    "Try rephrasing your query or check if the equipment/system is covered in the fault database."

  /**
   * The message of an unknown-query verdict: which of the five fixed
   * wordings, and the terms it names. `NoticeText` gives the exact text.
   */
  datatype Notice =
    | NoFaultsFound(terms: seq<string>)
    | NoEngineFaultsFound(terms: seq<string>)
    | LimitedCoverage(terms: seq<string>)
    | SomeCoverage(terms: seq<string>)
    | LowConfidenceInAll

  /** The verdict of `_detect_unknown_query`. */
  datatype Detection =
    | Known
    | Unknown(missingTerms: seq<string>, penalty: real, message: Notice)

  /** What `process` returns: a bare list, or the wrapper for an unknown query. */
  datatype HybridOutput =
    | Plain(results: seq<Match>)
    | Flagged(results: seq<Match>, unknownMessage: Notice, missingTerms: seq<string>, suggestion: string)

  function Min1(x: real): real { if 1.0 <= x then 1.0 else x }

  // ---------------------------------------------------------------- term scan

  /** The terms occurring in `text` and not in `excluded`, in the order of `terms`. */
  function Scan(terms: seq<string>, text: string, excluded: seq<string>): seq<string> {
    if terms == [] then []
    else
      var t := terms[|terms| - 1];
      Scan(terms[..|terms| - 1], text, excluded) + (if Occurs(t, text) && t !in excluded then [t] else [])
  }

  /** The matched equipment terms followed by the matched indicators, over the lowercased query. */
  function SpecialTerms(query: string): seq<string> {
    Scan(SpecificEquipment, Lower(query), []) + Scan(NonEngineIndicators, Lower(query), EngineRelated)
  }

  /** Python's `', '.join(terms)`. */
  function TermList(terms: seq<string>): string { Join(terms, ", ") }

  /** The wording of each notice, with the terms joined by commas where it names them. */
  function NoticeText(n: Notice): string {
    match n
    case NoFaultsFound(terms) =>
      "No faults found related to '" + TermList(terms)
        + "'. This equipment/system may not be covered in the engine fault database."
    case NoEngineFaultsFound(terms) =>
      "No engine faults found related to '" + TermList(terms)
        + "'. The returned results are general engine issues that may not be relevant to your specific query."
    case LimitedCoverage(terms) =>
      "Limited engine fault information available for '" + TermList(terms)
        + "'. Showing general engine faults that may be indirectly related."
    case SomeCoverage(terms) =>
      "Some engine faults found related to '" + TermList(terms) + "', but coverage may be limited."
    case LowConfidenceInAll =>
      "Low confidence in all matches. Your query might be about equipment or issues not well covered in the engine fault database."
  }

  // ------------------------------------------------------------- relevance

  /** The lowercased text of each cause. */
  function CauseTexts(causes: seq<Cause>): seq<string> {
    seq(|causes|, i requires 0 <= i < |causes| => Lower(causes[i].text))
  }

  /**
   * The text a result is checked against: its lowercased name, a space,
   * its lowercased causes joined by spaces, a space, and the (always empty)
   * symptom list, since results carry no symptoms.
   */
  function FaultText(m: Match): string {
    Lower(m.fault) + " " + Join(CauseTexts(m.causes), " ") + " " + Join([], " ")
  }

  predicate Relevant(m: Match, terms: seq<string>) {
    AnyOccurs(terms, FaultText(m))
  }

  /** How many of `rs` mention one of `terms`. */
  function CountRelevant(rs: seq<Match>, terms: seq<string>): nat {
    if rs == [] then 0
    else CountRelevant(rs[..|rs| - 1], terms) + (if Relevant(rs[|rs| - 1], terms) then 1 else 0)
  }

  /** Python's `relevant / total` on integers, a true division. */
  function Ratio(relevant: nat, total: nat): real
    requires total > 0
  {
    relevant as real / total as real
  }

  function MinInt(a: int, b: int): int { if a <= b then a else b }

  // -------------------------------------------------------- low confidence

  /** A rule confidence (any source mentioning "rule") is read on a 0-20 scale. */
  function NormalizedConfidence(m: Match): real {
    if m.source == "rule_engine" || Occurs("rule", m.source) then Min1(m.confidence / 20.0) else m.confidence
  }

  function NormalizedAll(rs: seq<Match>): seq<real> {
    seq(|rs|, i requires 0 <= i < |rs| => NormalizedConfidence(rs[i]))
  }

  function SumOf(xs: seq<real>): real {
    if xs == [] then 0.0 else SumOf(xs[..|xs| - 1]) + xs[|xs| - 1]
  }

  /** Python's `max(xs)` on a non-empty list. */
  function MaxOf(xs: seq<real>): (m: real)
    requires xs != []
    ensures m in xs
    ensures forall i :: 0 <= i < |xs| ==> xs[i] <= m
  {
    if |xs| == 1 then xs[0]
    else
      var m := MaxOf(xs[..|xs| - 1]);
      assert forall i :: 0 <= i < |xs| - 1 ==> xs[..|xs| - 1][i] == xs[i];
      if m >= xs[|xs| - 1] then m else xs[|xs| - 1]
  }

  /** The last check of `_detect_unknown_query`: every result is weak. */
  function LowConfidence(all: seq<Match>): Detection {
    if all == [] then Known
    else
      var ns := NormalizedAll(all);
      if SumOf(ns) / |ns| as real < 0.25 && MaxOf(ns) < 0.4 then Unknown([], 1.0, LowConfidenceInAll)
      else Known
  }

  /**
   * The term-based decision of `_detect_unknown_query`, once the special
   * terms of the query are known; `None` when it falls through to the
   * low-confidence check.
   */
  function Classify(terms: seq<string>, ruleResults: seq<Match>, neuralResults: seq<Match>): Option<Detection> {
    if terms == [] then None
    else
      var total := MinInt(10, |ruleResults| + |neuralResults|);
      if total == 0 then Some(Unknown(terms, 0.0, NoFaultsFound(terms)))
      else
        RatioVerdict(terms, Ratio(CountRelevant((ruleResults + neuralResults)[..total], terms), total))
  }

  /** The share of relevant results decides: none, under 20% and under 50% are three degrees of unknown. */
  function RatioVerdict(terms: seq<string>, ratio: real): Option<Detection> {
    if ratio == 0.0 then Some(Unknown(terms, 0.1, NoEngineFaultsFound(terms)))
    else if ratio < 0.2 then Some(Unknown(terms, 0.3, LimitedCoverage(terms)))
    else if ratio < 0.5 then Some(Unknown(terms, 0.6, SomeCoverage(terms)))
    else None
  }

  /** `_detect_unknown_query` as a value. */
  function Detect(query: string, ruleResults: seq<Match>, neuralResults: seq<Match>): Detection {
    match Classify(SpecialTerms(query), ruleResults, neuralResults)
    case Some(d) => d
    case None => LowConfidence(ruleResults + neuralResults)
  }

  /** One term scan of `_detect_unknown_query`: appends each term found in the text and not excluded. */
  method ScanTerms(terms: seq<string>, text: string, excluded: seq<string>) returns (found: seq<string>)
    ensures found == Scan(terms, text, excluded)
  {
    found := [];
    for i := 0 to |terms|
      invariant found == Scan(terms[..i], text, excluded)
    {
      assert terms[..i + 1][..i] == terms[..i];
      var term := terms[i];
      if Occurs(term, text) && term !in excluded {
        found := found + [term];
      }
    }
    assert terms[..|terms|] == terms;
  }

  /** The relevance loop of `_detect_unknown_query`: counts the results mentioning a term. */
  method CountRelevantResults(checked: seq<Match>, terms: seq<string>) returns (relevantResults: nat)
    ensures relevantResults == CountRelevant(checked, terms)
  {
    relevantResults := 0;
    for i := 0 to |checked|
      invariant relevantResults == CountRelevant(checked[..i], terms)
    {
      assert checked[..i + 1][..i] == checked[..i];
      if AnyOccurs(terms, FaultText(checked[i])) {
        relevantResults := relevantResults + 1;
      }
    }
    assert checked[..|checked|] == checked;
  }

  /** The low-confidence check of `_detect_unknown_query`, normalising one result at a time. */
  method CheckLowConfidence(allResults: seq<Match>) returns (d: Detection)
    ensures d == LowConfidence(allResults)
  {
    d := Known;
    if allResults != [] {
      var normalized: seq<real> := [];
      for i := 0 to |allResults|
        invariant normalized == NormalizedAll(allResults[..i])
      {
        normalized := normalized + [NormalizedConfidence(allResults[i])];
      }
      assert allResults[..|allResults|] == allResults;
      var avgConfidence := SumOf(normalized) / |normalized| as real;
      var maxConfidence := MaxOf(normalized);
      if avgConfidence < 0.25 && maxConfidence < 0.4 {
        d := Unknown([], 1.0, LowConfidenceInAll);
      }
    }
  }

  /** `_detect_unknown_query`: two term scans, a relevance count, then the low-confidence check. */
  method DetectUnknownQuery(query: string, ruleResults: seq<Match>, neuralResults: seq<Match>) returns (d: Detection)
    ensures d == Detect(query, ruleResults, neuralResults)
  {
    var queryLower := Lower(query);
    var keyTerms := ScanTerms(SpecificEquipment, queryLower, []);
    var generalIndicators := ScanTerms(NonEngineIndicators, queryLower, EngineRelated);
    var verdict := ClassifyTerms(keyTerms, generalIndicators, ruleResults, neuralResults);
    if verdict.Some? {
      return verdict.value;
    }
    d := CheckLowConfidence(ruleResults + neuralResults);
  }

  /** The part of `_detect_unknown_query` after the two scans, up to the low-confidence check. */
  method ClassifyTerms(keyTerms: seq<string>, generalIndicators: seq<string>,
                       ruleResults: seq<Match>, neuralResults: seq<Match>) returns (verdict: Option<Detection>)
    ensures verdict == Classify(keyTerms + generalIndicators, ruleResults, neuralResults)
  {
    var allResults := ruleResults + neuralResults;
    if keyTerms != [] || generalIndicators != [] {
      var allSpecialTerms := keyTerms + generalIndicators;
      var totalChecked := MinInt(10, |ruleResults| + |neuralResults|);
      if totalChecked == 0 {
        return Some(Unknown(allSpecialTerms, 0.0, NoFaultsFound(allSpecialTerms)));
      }
      var relevantResults := CountRelevantResults(allResults[..totalChecked], allSpecialTerms);
      var ratio := Ratio(relevantResults, totalChecked);
      return RatioVerdict(allSpecialTerms, ratio);
    }
    verdict := None;
  }

  // ---------------------------------------------------------------- fusion

  function NormalizeRule(m: Match): Match {
    m.(confidence := Min1(m.confidence / 20.0), source := "rule_engine_hybrid")
  }

  function TagNeural(m: Match): Match {
    m.(source := "neural_engine_hybrid")
  }

  /** The agreement boost: 20% more, capped at 1. */
  function Boost(c: real): real { Min1(c * 1.2) }

  /** Every value of the dictionary is stored under its own fault name. */
  predicate KeyedByName(d: Dict<string, Match>) {
    forall k | k in d.values :: d.values[k].fault == k
  }

  /** The first pass: each rule result is stored under its name, a later one replacing an earlier one. */
  function AddRules(d: Dict<string, Match>, rs: seq<Match>): (r: Dict<string, Match>)
    requires d.Valid() && KeyedByName(d)
    ensures r.Valid() && KeyedByName(r)
  {
    if rs == [] then d
    else var m := rs[|rs| - 1]; AddRules(d, rs[..|rs| - 1]).Put(m.fault, m)
  }

  /**
   * One neural result of the second pass: a new name is stored; for a name
   * already present the higher confidence wins (the stored one on a tie),
   * is boosted and is tagged as found by both engines.
   */
  function Merge(d: Dict<string, Match>, m: Match): (r: Dict<string, Match>)
    requires d.Valid() && KeyedByName(d)
    ensures r.Valid() && KeyedByName(r)
  {
    if m.fault !in d.values then d.Put(m.fault, m)
    else
      var existing := d.values[m.fault];
      if m.confidence > existing.confidence then
        d.Put(m.fault, m.(confidence := Boost(m.confidence), source := "both_engines"))
      else
        d.Put(m.fault, existing.(confidence := Boost(existing.confidence), source := "both_engines"))
  }

  function AddNeural(d: Dict<string, Match>, ns: seq<Match>): (r: Dict<string, Match>)
    requires d.Valid() && KeyedByName(d)
    ensures r.Valid() && KeyedByName(r)
  {
    if ns == [] then d else Merge(AddNeural(d, ns[..|ns| - 1]), ns[|ns| - 1])
  }

  function NormalizedRules(rs: seq<Match>): seq<Match> {
    seq(|rs|, i requires 0 <= i < |rs| => NormalizeRule(rs[i]))
  }

  function TaggedNeural(ns: seq<Match>): seq<Match> {
    seq(|ns|, i requires 0 <= i < |ns| => TagNeural(ns[i]))
  }

  /** The dictionary after both passes. */
  function Merged(ruleResults: seq<Match>, neuralResults: seq<Match>): (d: Dict<string, Match>)
    ensures d.Valid() && KeyedByName(d)
  {
    AddNeural(AddRules(Empty(), NormalizedRules(ruleResults)), TaggedNeural(neuralResults))
  }

  /** `_combine_results` as a value: the merged values, ranked, at most five. */
  function Combine(ruleResults: seq<Match>, neuralResults: seq<Match>): seq<Match> {
    Take(SortDesc(Merged(ruleResults, neuralResults).Values(), Confidence), 5)
  }

  /** The first loop of `_combine_results`: a rescaled, retagged copy of each rule result. */
  method NormalizeRuleResults(ruleResults: seq<Match>) returns (normalizedRule: seq<Match>)
    ensures normalizedRule == NormalizedRules(ruleResults)
  {
    normalizedRule := [];
    for i := 0 to |ruleResults|
      invariant normalizedRule == NormalizedRules(ruleResults[..i])
    {
      normalizedRule := normalizedRule + [NormalizeRule(ruleResults[i])];
    }
    assert ruleResults[..|ruleResults|] == ruleResults;
  }

  /** The second loop of `_combine_results`: a retagged copy of each neural result. */
  method TagNeuralResults(neuralResults: seq<Match>) returns (normalizedNeural: seq<Match>)
    ensures normalizedNeural == TaggedNeural(neuralResults)
  {
    normalizedNeural := [];
    for i := 0 to |neuralResults|
      invariant normalizedNeural == TaggedNeural(neuralResults[..i])
    {
      normalizedNeural := normalizedNeural + [TagNeural(neuralResults[i])];
    }
    assert neuralResults[..|neuralResults|] == neuralResults;
  }

  /** The third loop of `_combine_results`: each rule result stored under its name. */
  method InsertRuleResults(normalizedRule: seq<Match>) returns (combinedDict: Dict<string, Match>)
    ensures combinedDict == AddRules(Empty(), normalizedRule)
  {
    combinedDict := Empty();
    for i := 0 to |normalizedRule|
      invariant combinedDict == AddRules(Empty(), normalizedRule[..i])
    {
      assert normalizedRule[..i + 1][..i] == normalizedRule[..i];
      var result := normalizedRule[i];
      combinedDict := combinedDict.Put(result.fault, result);
    }
    assert normalizedRule[..|normalizedRule|] == normalizedRule;
  }

  /** The fourth loop of `_combine_results`: each neural result merged into the dictionary. */
  method MergeNeuralResults(start: Dict<string, Match>, normalizedNeural: seq<Match>) returns (combinedDict: Dict<string, Match>)
    requires start.Valid() && KeyedByName(start)
    ensures combinedDict == AddNeural(start, normalizedNeural)
  {
    combinedDict := start;
    for i := 0 to |normalizedNeural|
      invariant combinedDict == AddNeural(start, normalizedNeural[..i])
    {
      assert normalizedNeural[..i + 1][..i] == normalizedNeural[..i];
      var result := normalizedNeural[i];
      assert AddNeural(start, normalizedNeural[..i + 1]) == Merge(combinedDict, result);
      var faultName := result.fault;
      if faultName !in combinedDict.values {
        combinedDict := combinedDict.Put(faultName, result);
      } else {
        var existing := combinedDict.values[faultName];
        if result.confidence > existing.confidence {
          var boosted := result.(confidence := Boost(result.confidence), source := "both_engines");
          combinedDict := combinedDict.Put(faultName, boosted);
        } else {
          var boosted := existing.(confidence := Boost(existing.confidence), source := "both_engines");
          combinedDict := combinedDict.Put(faultName, boosted);
        }
      }
    }
    assert normalizedNeural[..|normalizedNeural|] == normalizedNeural;
  }

  /** `_combine_results`: normalises copies of the inputs, merges them by name, ranks and truncates. */
  method CombineResults(ruleResults: seq<Match>, neuralResults: seq<Match>) returns (combined: seq<Match>)
    ensures combined == Combine(ruleResults, neuralResults)
  {
    var normalizedRule := NormalizeRuleResults(ruleResults);
    var normalizedNeural := TagNeuralResults(neuralResults);
    var combinedDict := InsertRuleResults(normalizedRule);
    combinedDict := MergeNeuralResults(combinedDict, normalizedNeural);
    var combinedList := combinedDict.Values();
    combinedList := SortDesc(combinedList, Confidence);
    combined := Take(combinedList, 5);
  }

  // --------------------------------------------------------------- process

  /** Every confidence multiplied by the penalty. */
  function Penalized(rs: seq<Match>, penalty: real): seq<Match> {
    seq(|rs|, i requires 0 <= i < |rs| => rs[i].(confidence := rs[i].confidence * penalty))
  }

  /** `process` as a value, given what each engine call produced (`None`: it raised). */
  function Hybrid(query: string, ruleOutcome: Option<seq<Match>>, neuralOutcome: Option<seq<Match>>): HybridOutput {
    var ruleResults := ruleOutcome.GetOr([]);
    var neuralResults := neuralOutcome.GetOr([]);
    match Detect(query, ruleResults, neuralResults)
    case Known => Plain(Combine(ruleResults, neuralResults))
    case Unknown(missing, penalty, message) =>
      Flagged(Combine(Penalized(ruleResults, penalty), Penalized(neuralResults, penalty)), message, missing, Suggestion)
  }

  /** The penalty loop of `process`: every result's confidence is scaled in place. */
  method ApplyPenalty(results: array<Match>, penalty: real)
    modifies results
    ensures results[..] == Penalized(old(results[..]), penalty)
  {
    for i := 0 to results.Length
      invariant forall k :: 0 <= k < i ==> results[k] == old(results[k]).(confidence := old(results[k]).confidence * penalty)
      invariant forall k :: i <= k < results.Length ==> results[k] == old(results[k])
    {
      results[i] := results[i].(confidence := results[i].confidence * penalty);
    }
    assert forall k :: 0 <= k < results.Length ==> results[..][k] == Penalized(old(results[..]), penalty)[k];
  }

  /**
   * `process` with each engine called on the query alone: detect, penalise
   * in place when the query is unknown, combine, and wrap the result.
   */
  method Process(query: string, ruleOutcome: Option<seq<Match>>, neuralOutcome: Option<seq<Match>>)
    returns (output: HybridOutput)
    ensures output == Hybrid(query, ruleOutcome, neuralOutcome)
  {
    var ruleList := ruleOutcome.GetOr([]);
    var neuralList := neuralOutcome.GetOr([]);
    var ruleResults := new Match[|ruleList|](i requires 0 <= i < |ruleList| => ruleList[i]);
    var neuralResults := new Match[|neuralList|](i requires 0 <= i < |neuralList| => neuralList[i]);
    assert ruleResults[..] == ruleList && neuralResults[..] == neuralList;
    var unknownDetection := DetectUnknownQuery(query, ruleResults[..], neuralResults[..]);
    if unknownDetection.Unknown? {
      var penalty := unknownDetection.penalty;
      ApplyPenalty(ruleResults, penalty);
      ApplyPenalty(neuralResults, penalty);
    }
    var combinedResults := CombineResults(ruleResults[..], neuralResults[..]);
    if unknownDetection.Unknown? {
      return Flagged(combinedResults, unknownDetection.message, unknownDetection.missingTerms, Suggestion);
    }
    output := Plain(combinedResults);
  }

  /**
   * An engine's `process` takes only the query, so calling it with the
   * keyword `processed_data` raises a TypeError, which `process` catches.
   */
  function CallWithProcessedData(results: seq<Match>): Option<seq<Match>> { None }

  /** `process` as written: both engine calls pass `processed_data=` and so both raise. */
  method ProcessAsWritten(query: string, ruleResults: seq<Match>, neuralResults: seq<Match>)
    returns (output: HybridOutput)
    ensures output == Hybrid(query, CallWithProcessedData(ruleResults), CallWithProcessedData(neuralResults))
  {
    output := Process(query, CallWithProcessedData(ruleResults), CallWithProcessedData(neuralResults));
  }

  // ---------------------------------------------------------------- lemmas

  /** A scan keeps exactly the terms that occur and are not excluded, and only from `terms`. */
  lemma {:induction false} ScanMembers(terms: seq<string>, text: string, excluded: seq<string>, t: string)
    ensures t in Scan(terms, text, excluded) <==> t in terms && Occurs(t, text) && t !in excluded
    ensures |Scan(terms, text, excluded)| <= |terms|
  {
    if terms != [] {
      var init := terms[..|terms| - 1];
      ScanMembers(init, text, excluded, t);
      assert terms == init + [terms[|terms| - 1]];
    }
  }

  /**
   * The reported terms are the listed equipment terms and the non-alarm
   * indicators that occur in the lowercased query.
   */
  lemma SpecialTermsMembers(query: string, t: string)
    ensures t in SpecialTerms(query) <==>
      Occurs(t, Lower(query)) && (t in SpecificEquipment || (t in NonEngineIndicators && t != "alarm"))
  {
    ScanMembers(SpecificEquipment, Lower(query), [], t);
    ScanMembers(NonEngineIndicators, Lower(query), EngineRelated, t);
  }

  lemma {:induction false} CountRelevantBound(rs: seq<Match>, terms: seq<string>)
    ensures CountRelevant(rs, terms) <= |rs|
    ensures CountRelevant(rs, terms) == 0 <==> forall i :: 0 <= i < |rs| ==> !Relevant(rs[i], terms)
  {
    if rs != [] {
      var init := rs[..|rs| - 1];
      CountRelevantBound(init, terms);
      assert forall i :: 0 <= i < |init| ==> init[i] == rs[i];
    }
  }

  /**
   * With matched terms and at least one result, the penalty follows the
   * relevance ratio: 0 gives 0.1, below 0.2 gives 0.3, below 0.5 gives 0.6,
   * and from 0.5 on the decision falls through to the low-confidence check.
   */
  lemma PenaltyLadder(terms: seq<string>, ruleResults: seq<Match>, neuralResults: seq<Match>)
    requires terms != [] && ruleResults + neuralResults != []
    ensures var total := MinInt(10, |ruleResults| + |neuralResults|);
      var relevant := CountRelevant((ruleResults + neuralResults)[..total], terms);
      var v := Classify(terms, ruleResults, neuralResults);
      && 0 < total <= 10
      && (relevant == 0 ==> v == Some(Unknown(terms, 0.1, NoEngineFaultsFound(terms))))
      && (0 < relevant && 5 * relevant < total ==> v == Some(Unknown(terms, 0.3, LimitedCoverage(terms))))
      && (total <= 5 * relevant && 2 * relevant < total ==> v == Some(Unknown(terms, 0.6, SomeCoverage(terms))))
      && (total <= 2 * relevant ==> v == None)
  {
    var total := MinInt(10, |ruleResults| + |neuralResults|);
    var relevant := CountRelevant((ruleResults + neuralResults)[..total], terms);
    RatioFacts(relevant, total);
  }

  /** The ratio thresholds in integer terms. */
  lemma RatioFacts(relevant: nat, total: nat)
    requires total > 0
    ensures Ratio(relevant, total) == 0.0 <==> relevant == 0
    ensures Ratio(relevant, total) < 0.2 <==> 5 * relevant < total
    ensures Ratio(relevant, total) < 0.5 <==> 2 * relevant < total
  {
    DivBelow(relevant as real, total as real, 0.2);
    DivBelow(relevant as real, total as real, 0.5);
  }

  lemma DivBelow(a: real, t: real, c: real)
    requires t > 0.0
    ensures a / t < c <==> a < c * t
    ensures a / t == 0.0 <==> a == 0.0
  {
    var x := a / t;
    assert x * t == a;
    if x < c {
      assert x * t < c * t;
    }
    if a < c * t {
      assert x * t < c * t;
    }
  }

  /** Matched terms with no result at all: unknown, nothing to penalise, and the terms are reported. */
  lemma NoResultsForTerms(query: string)
    requires SpecialTerms(query) != []
    ensures Detect(query, [], []) == Unknown(SpecialTerms(query), 0.0, NoFaultsFound(SpecialTerms(query)))
  {
  }

  /** An equipment term and an indicator in the query, and no result from either engine: both are reported, penalty 0. */
  lemma TermsWithoutResults(query: string, equipment: string, indicator: string)
    requires equipment in SpecificEquipment && Occurs(equipment, Lower(query))
    requires indicator in NonEngineIndicators && indicator != "alarm" && Occurs(indicator, Lower(query))
    ensures var d := Detect(query, [], []);
      && d.Unknown? && d.penalty == 0.0
      && equipment in d.missingTerms && indicator in d.missingTerms
  {
    SpecialTermsMembers(query, equipment);
    SpecialTermsMembers(query, indicator);
    NoResultsForTerms(query);
  }

  /** "seawater pump leaking" with no result from either engine is unknown, reports "seawater" and "leak", and gets penalty 0. */
  lemma SeawaterPumpLeaking()
    ensures var d := Detect("seawater pump leaking", [], []);
      && d.Unknown? && d.penalty == 0.0
      && "seawater" in d.missingTerms && "leak" in d.missingTerms
  {
    var q := "seawater pump leaking";
    SeawaterPumpLeakingTerms(q);
    TermsWithoutResults(q, "seawater", "leak");
  }

  lemma SeawaterPumpLeakingTerms(q: string)
    requires q == "seawater pump leaking"
    ensures "seawater" in SpecificEquipment && Occurs("seawater", Lower(q))
    ensures "leak" in NonEngineIndicators && Occurs("leak", Lower(q))
  {
    assert forall i | 0 <= i < |q| :: !IsUpper(q[i]);
    LowerIsLower(q);
    assert q[0..8] == "seawater";
    assert OccursAt("seawater", q, 0);
    assert q[14..18] == "leak";
    assert OccursAt("leak", q, 14);
    assert WaterSystems[0] == "seawater";
    assert SpecificEquipment[0] == "seawater";
    assert NonEngineIndicators[4] == "leak";
  }

  /**
   * An unknown verdict carries a penalty in [0, 1]; it reports no terms
   * exactly when it comes from the low-confidence check, whose penalty is
   * 1 and which needs every normalised confidence below 0.4.
   */
  lemma DetectionShape(query: string, ruleResults: seq<Match>, neuralResults: seq<Match>)
    ensures var d := Detect(query, ruleResults, neuralResults);
      d.Unknown? ==>
        && 0.0 <= d.penalty <= 1.0
        && (d.missingTerms == [] <==> d.penalty == 1.0)
        && (d.missingTerms != [] ==> d.missingTerms == SpecialTerms(query))
        && (d.penalty == 1.0 ==> forall m | m in ruleResults + neuralResults :: NormalizedConfidence(m) < 0.4)
  {
    var all := ruleResults + neuralResults;
    if LowConfidence(all).Unknown? {
      var ns := NormalizedAll(all);
      forall m | m in all ensures NormalizedConfidence(m) < 0.4 {
        var i :| 0 <= i < |all| && all[i] == m;
        assert ns[i] == NormalizedConfidence(m);
      }
    }
  }

  /** A single result normalised to at least 0.4 rules out the low-confidence verdict. */
  lemma StrongResultIsKnown(all: seq<Match>, i: nat)
    requires i < |all| && NormalizedConfidence(all[i]) >= 0.4
    ensures LowConfidence(all) == Known
  {
    assert NormalizedAll(all)[i] == NormalizedConfidence(all[i]);
  }

  /** The boost never lowers a confidence in [0, 1] and never exceeds 1. */
  lemma BoostBounds(c: real)
    requires 0.0 <= c <= 1.0
    ensures c <= Boost(c) <= 1.0
  {
  }

  /**
   * A rule confidence is read on a scale of 20 and capped at 1, so one that
   * is not negative becomes a value in [0, 1]; the result is tagged as a
   * rule result of the hybrid engine and keeps everything else.
   */
  lemma NormalizeRuleBounds(m: Match)
    ensures m.confidence / 20.0 < 1.0 ==> NormalizeRule(m).confidence == m.confidence / 20.0
    ensures m.confidence / 20.0 >= 1.0 ==> NormalizeRule(m).confidence == 1.0
    ensures 0.0 <= m.confidence ==> 0.0 <= NormalizeRule(m).confidence <= 1.0
    ensures NormalizeRule(m).source == "rule_engine_hybrid"
    ensures NormalizeRule(m).(confidence := m.confidence, source := m.source) == m
  {
  }

  /**
   * Merging a result whose name is already present tags it as found by
   * both engines, with the larger confidence (the stored one on a tie)
   * boosted: never below either of the two and never above 1.
   */
  lemma MergeAgreement(d: Dict<string, Match>, m: Match)
    requires d.Valid() && KeyedByName(d)
    requires m.fault in d.values
    requires 0.0 <= m.confidence <= 1.0 && 0.0 <= d.values[m.fault].confidence <= 1.0
    ensures var e := d.values[m.fault];
      var f := Merge(d, m).values[m.fault];
      && f.source == "both_engines"
      && e.confidence <= f.confidence && m.confidence <= f.confidence && f.confidence <= 1.0
      && f == (if m.confidence > e.confidence then m else e).(confidence := f.confidence, source := "both_engines")
      && Merge(d, m).keys == d.keys
  {
    BoostBounds(m.confidence);
    BoostBounds(d.values[m.fault].confidence);
  }

  /** Merging a new name appends it with its own value; present names are untouched. */
  lemma MergeNew(d: Dict<string, Match>, m: Match)
    requires d.Valid() && KeyedByName(d) && m.fault !in d.values
    ensures Merge(d, m).values == d.values[m.fault := m]
    ensures Merge(d, m).keys == d.keys + [m.fault]
  {
  }

  /** The merged names are exactly the names of the rule and neural results. */
  lemma {:induction false} AddRulesKeys(d: Dict<string, Match>, rs: seq<Match>, k: string)
    requires d.Valid() && KeyedByName(d)
    ensures k in AddRules(d, rs).values <==> k in d.values || exists i :: 0 <= i < |rs| && rs[i].fault == k
  {
    if rs != [] {
      var init := rs[..|rs| - 1];
      AddRulesKeys(d, init, k);
      assert forall i :: 0 <= i < |init| ==> init[i] == rs[i];
    }
  }

  /** Merging a result adds its name to the keys and changes no other key. */
  lemma MergeKeys(d: Dict<string, Match>, m: Match, k: string)
    requires d.Valid() && KeyedByName(d)
    ensures k in Merge(d, m).values <==> k in d.values || k == m.fault
  {
  }

  lemma {:induction false} AddNeuralKeys(d: Dict<string, Match>, ns: seq<Match>, k: string)
    requires d.Valid() && KeyedByName(d)
    ensures k in AddNeural(d, ns).values <==> k in d.values || exists i :: 0 <= i < |ns| && ns[i].fault == k
  {
    if ns != [] {
      var init := ns[..|ns| - 1];
      AddNeuralKeys(d, init, k);
      MergeKeys(AddNeural(d, init), ns[|ns| - 1], k);
      assert forall i :: 0 <= i < |init| ==> init[i] == ns[i];
    }
  }

  /** A name gets a rule value from the LAST rule result carrying it. */
  lemma {:induction false} AddRulesLastWins(d: Dict<string, Match>, rs: seq<Match>, i: nat)
    requires d.Valid() && KeyedByName(d)
    requires i < |rs| && forall j :: i < j < |rs| ==> rs[j].fault != rs[i].fault
    ensures rs[i].fault in AddRules(d, rs).values && AddRules(d, rs).values[rs[i].fault] == rs[i]
  {
    var init := rs[..|rs| - 1];
    if i < |init| {
      assert forall j :: i < j < |init| ==> init[j] == rs[j];
      AddRulesLastWins(d, init, i);
    }
  }

  /** Neural results with other names leave an entry untouched. */
  lemma {:induction false} AddNeuralUntouched(d: Dict<string, Match>, ns: seq<Match>, k: string)
    requires d.Valid() && KeyedByName(d) && k in d.values
    requires forall j :: 0 <= j < |ns| ==> ns[j].fault != k
    ensures k in AddNeural(d, ns).values && AddNeural(d, ns).values[k] == d.values[k]
  {
    if ns != [] {
      var init := ns[..|ns| - 1];
      assert forall j :: 0 <= j < |init| ==> init[j] == ns[j];
      AddNeuralUntouched(d, init, k);
    }
  }

  /** The entry a merge leaves under the result's name depends only on what was stored under that name. */
  lemma MergeSameEntry(d1: Dict<string, Match>, d2: Dict<string, Match>, m: Match)
    requires d1.Valid() && KeyedByName(d1) && d2.Valid() && KeyedByName(d2)
    requires m.fault in d1.values <==> m.fault in d2.values
    requires m.fault in d1.values ==> d1.values[m.fault] == d2.values[m.fault]
    ensures m.fault in Merge(d1, m).values && m.fault in Merge(d2, m).values
    ensures Merge(d1, m).values[m.fault] == Merge(d2, m).values[m.fault]
  {
  }

  /** A merge leaves every other name as it was. */
  lemma MergeOther(d: Dict<string, Match>, m: Match, k: string)
    requires d.Valid() && KeyedByName(d) && k != m.fault && k in d.values
    ensures k in Merge(d, m).values && Merge(d, m).values[k] == d.values[k]
  {
  }

  /** The entry of a name carried by exactly one neural result, the one with index `i`, is that result merged. */
  lemma {:induction false} AddNeuralSingle(d: Dict<string, Match>, ns: seq<Match>, i: nat)
    requires d.Valid() && KeyedByName(d)
    requires i < |ns| && forall j :: 0 <= j < |ns| && j != i ==> ns[j].fault != ns[i].fault
    ensures var k := ns[i].fault;
      k in AddNeural(d, ns).values && AddNeural(d, ns).values[k] == Merge(d, ns[i]).values[k]
  {
    var init := ns[..|ns| - 1];
    var last := ns[|ns| - 1];
    var k := ns[i].fault;
    assert AddNeural(d, ns) == Merge(AddNeural(d, init), last);
    if i == |ns| - 1 {
      if k in d.values {
        AddNeuralUntouched(d, init, k);
      } else {
        AddNeuralKeys(d, init, k);
      }
      MergeSameEntry(AddNeural(d, init), d, last);
    } else {
      assert forall j :: 0 <= j < |init| && j != i ==> init[j] == ns[j];
      AddNeuralSingle(d, init, i);
      MergeOther(AddNeural(d, init), last, k);
    }
  }

  /**
   * A fault both engines found, once in the neural list, ends up tagged as
   * found by both, with a confidence at least the normalised rule value and
   * at least the neural value, and at most 1 (for confidences in [0, 1]).
   */
  lemma AgreementBoosted(ruleResults: seq<Match>, neuralResults: seq<Match>, r: nat, n: nat)
    requires r < |ruleResults| && n < |neuralResults|
    requires ruleResults[r].fault == neuralResults[n].fault
    requires forall j :: r < j < |ruleResults| ==> ruleResults[j].fault != ruleResults[r].fault
    requires forall j :: 0 <= j < |neuralResults| && j != n ==> neuralResults[j].fault != neuralResults[n].fault
    requires 0.0 <= ruleResults[r].confidence && 0.0 <= neuralResults[n].confidence <= 1.0
    ensures ruleResults[r].fault in Merged(ruleResults, neuralResults).values
    ensures var f := Merged(ruleResults, neuralResults).values[ruleResults[r].fault];
      && f.source == "both_engines"
      && NormalizeRule(ruleResults[r]).confidence <= f.confidence
      && neuralResults[n].confidence <= f.confidence
      && f.confidence <= 1.0
  {
    var k := ruleResults[r].fault;
    var rules := NormalizedRules(ruleResults);
    var tagged := TaggedNeural(neuralResults);
    var d := AddRules(Empty(), rules);
    AddRulesLastWins(Empty(), rules, r);
    AddNeuralSingle(d, tagged, n);
    NormalizeRuleBounds(ruleResults[r]);
    MergeAgreement(d, tagged[n]);
  }

  /** `_combine_results` returns at most five results, ranked, with pairwise distinct names. */
  lemma CombineShape(ruleResults: seq<Match>, neuralResults: seq<Match>)
    ensures |Combine(ruleResults, neuralResults)| <= 5
    ensures SortedDesc(Combine(ruleResults, neuralResults), Confidence)
    ensures DistinctBy(Combine(ruleResults, neuralResults), (m: Match) => m.fault)
  {
    var d := Merged(ruleResults, neuralResults);
    var vs := d.Values();
    assert DistinctBy(vs, (m: Match) => m.fault) by {
      forall i, j | 0 <= i < j < |vs| ensures vs[i].fault != vs[j].fault {
        assert vs[i].fault == d.keys[i] && vs[j].fault == d.keys[j];
      }
    }
    SortDescCorrect(vs, Confidence);
    SortDescDistinct(vs, Confidence, (m: Match) => m.fault);
  }

  /** Each result of the combination is the entry merged under its name. */
  lemma CombineEntries(ruleResults: seq<Match>, neuralResults: seq<Match>)
    ensures var d := Merged(ruleResults, neuralResults);
      forall m | m in Combine(ruleResults, neuralResults) :: m.fault in d.values && d.values[m.fault] == m
  {
    var d := Merged(ruleResults, neuralResults);
    var vs := d.Values();
    TakeSortedKeepsBest(vs, Confidence, 5);
    forall m | m in Combine(ruleResults, neuralResults) ensures m.fault in d.values && d.values[m.fault] == m {
      var i :| 0 <= i < |vs| && vs[i] == m;
      assert d.values[d.keys[i]] == m;
    }
  }

  /**
   * The combination keeps the most confident merged entries: no entry left
   * out is more confident than a kept one, and results of equal confidence
   * keep their merged order.
   */
  lemma CombineKeepsBest(ruleResults: seq<Match>, neuralResults: seq<Match>)
    ensures var r, vs := Combine(ruleResults, neuralResults), Merged(ruleResults, neuralResults).Values();
      forall m, k | m in vs && m !in r && k in r :: Confidence(m) <= Confidence(k)
    ensures var r, vs := Combine(ruleResults, neuralResults), Merged(ruleResults, neuralResults).Values();
      forall v :: WithKey(r, Confidence, v) <= WithKey(vs, Confidence, v)
  {
    TakeSortedKeepsBest(Merged(ruleResults, neuralResults).Values(), Confidence, 5);
  }

  /** Every result of `_combine_results` carries the name of some rule or neural result. */
  lemma CombineNames(ruleResults: seq<Match>, neuralResults: seq<Match>)
    ensures forall m | m in Combine(ruleResults, neuralResults) ::
      (exists i :: 0 <= i < |ruleResults| && ruleResults[i].fault == m.fault)
      || (exists i :: 0 <= i < |neuralResults| && neuralResults[i].fault == m.fault)
  {
    var rules := NormalizedRules(ruleResults);
    var tagged := TaggedNeural(neuralResults);
    var d := Merged(ruleResults, neuralResults);
    var vs := d.Values();
    SortDescMembers(vs, Confidence);
    forall m | m in Combine(ruleResults, neuralResults)
      ensures (exists i :: 0 <= i < |ruleResults| && ruleResults[i].fault == m.fault)
           || (exists i :: 0 <= i < |neuralResults| && neuralResults[i].fault == m.fault)
    {
      assert m in vs;
      var j :| 0 <= j < |vs| && vs[j] == m;
      assert m.fault in d.values;
      AddRulesKeys(Empty(), rules, m.fault);
      AddNeuralKeys(AddRules(Empty(), rules), tagged, m.fault);
      if i :| 0 <= i < |rules| && rules[i].fault == m.fault {
        assert ruleResults[i].fault == m.fault;
      } else {
        var i :| 0 <= i < |tagged| && tagged[i].fault == m.fault;
        assert neuralResults[i].fault == m.fault;
      }
    }
  }

  /** `_combine_results` returns something whenever either engine did. */
  lemma CombineNonEmpty(ruleResults: seq<Match>, neuralResults: seq<Match>)
    requires ruleResults + neuralResults != []
    ensures Combine(ruleResults, neuralResults) != []
  {
    var rules := NormalizedRules(ruleResults);
    var tagged := TaggedNeural(neuralResults);
    var d := Merged(ruleResults, neuralResults);
    var k := (ruleResults + neuralResults)[0].fault;
    AddRulesKeys(Empty(), rules, k);
    AddNeuralKeys(AddRules(Empty(), rules), tagged, k);
    if ruleResults != [] {
      assert rules[0].fault == k;
    } else {
      assert tagged[0].fault == k;
    }
    assert k in d.values;
    assert |d.keys| > 0;
    SortDescCorrect(d.Values(), Confidence);
  }

  /**
   * What `process` returns: the wrapper exactly when the query is judged
   * unknown, carrying that verdict's message and terms and the fixed
   * suggestion; in both forms at most five results, best first, one per
   * fault name.
   */
  lemma HybridShape(query: string, ruleOutcome: Option<seq<Match>>, neuralOutcome: Option<seq<Match>>)
    ensures var out := Hybrid(query, ruleOutcome, neuralOutcome);
      var d := Detect(query, ruleOutcome.GetOr([]), neuralOutcome.GetOr([]));
      && (out.Flagged? <==> d.Unknown?)
      && (out.Flagged? ==> out.unknownMessage == d.message && out.missingTerms == d.missingTerms && out.suggestion == Suggestion)
      && |out.results| <= 5
      && SortedDesc(out.results, Confidence)
      && DistinctBy(out.results, (m: Match) => m.fault)
  {
    var ruleResults := ruleOutcome.GetOr([]);
    var neuralResults := neuralOutcome.GetOr([]);
    var d := Detect(query, ruleResults, neuralResults);
    if d.Unknown? {
      CombineShape(Penalized(ruleResults, d.penalty), Penalized(neuralResults, d.penalty));
    } else {
      CombineShape(ruleResults, neuralResults);
    }
  }

  /** The as-written `process` never returns a fault, whatever the engines would have found. */
  lemma AsWrittenReturnsNothing(query: string, ruleResults: seq<Match>, neuralResults: seq<Match>)
    ensures Hybrid(query, CallWithProcessedData(ruleResults), CallWithProcessedData(neuralResults)).results == []
  {
    assert Merged([], []).keys == [];
    assert Combine([], []) == [];
    forall p: real ensures Penalized([], p) == [] { }
  }

  /** With the engines called on the query alone, any engine result yields a combined result. */
  lemma CorrectedReturnsFaults(query: string, ruleResults: seq<Match>, neuralResults: seq<Match>)
    requires ruleResults + neuralResults != []
    ensures Hybrid(query, Some(ruleResults), Some(neuralResults)).results != []
  {
    match Detect(query, ruleResults, neuralResults)
    case Known => CombineNonEmpty(ruleResults, neuralResults);
    case Unknown(_, penalty, _) =>
      CombineNonEmpty(Penalized(ruleResults, penalty), Penalized(neuralResults, penalty));
  }
}
