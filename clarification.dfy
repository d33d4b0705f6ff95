/**
 * The clarification dialogue: a query is classified by which vocabulary
 * words occur in it (as substrings, not whole words), and either the
 * assistant asks which engine, which component or which problem is meant,
 * or it produces the enhanced query that goes to the matching engines.
 * A pending question in the conversation state decides how the next
 * answer is read.
 */
module Clarification {
  import opened Wrappers
  import opened Text
  import InputPreprocessing

  const EngineTerms: seq<string> := ["main", "auxiliary", "aux", "generator", "gen", "me", "ae", "dg"]

  const ComponentTerms: seq<string> := [
    "temperature", "pressure", "vibration", "smoke", "noise",
    "cooling", "fuel", "oil", "turbocharger", "exhaust", "bearing"]

  const ProblemTerms: seq<string> := [
    "high", "low", "excessive", "insufficient", "abnormal", "unusual",
    "leak", "leaking", "hot", "cold", "loud", "rough", "black", "white", "blue"]

  const ActionTerms: seq<string> := ["start", "starting", "stop", "stopping", "run", "running", "work", "working"]

  const VagueTerms: seq<string> := [
    "problem", "issue", "trouble", "fault", "wrong", "bad", "strange",
    "something", "it", "that", "not good", "acting up", "broken", "damaged",
    "kaput", "failed", "failure", "dead", "gone", "finished", "malfunctioning"]

  const AuxiliaryTerms: seq<string> := ["auxiliary", "aux", "ae", "generator", "gen", "dg"]

  /**
   * Which engine a text names: "main engine" when "main" or "me" occurs,
   * else "auxiliary engine" for an auxiliary term, else "unspecified" when
   * only "engine" occurs, else none.
   */
  function GetEngineType(text: string): (r: Option<string>)
    ensures r.Some? ==> r.value in {"main engine", "auxiliary engine", "unspecified"}
    ensures r == Some("main engine") <==> Occurs("main", Lower(text)) || Occurs("me", Lower(text))
    ensures r == Some("auxiliary engine") <==>
      !Occurs("main", Lower(text)) && !Occurs("me", Lower(text)) && AnyOccurs(AuxiliaryTerms, Lower(text))
    ensures r == Some("unspecified") <==>
      !Occurs("main", Lower(text)) && !Occurs("me", Lower(text)) && !AnyOccurs(AuxiliaryTerms, Lower(text))
      && Occurs("engine", Lower(text))
    ensures r.None? <==>
      !Occurs("main", Lower(text)) && !Occurs("me", Lower(text)) && !AnyOccurs(AuxiliaryTerms, Lower(text))
      && !Occurs("engine", Lower(text))
  {
    var t := Lower(text);
    if Occurs("main", t) || Occurs("me", t) then Some("main engine")
    else if AnyOccurs(AuxiliaryTerms, t) then Some("auxiliary engine")
    else if Occurs("engine", t) then Some("unspecified")
    else None
  }

  datatype Analysis = Analysis(
    hasEngine: bool,
    hasComponent: bool,
    hasProblem: bool,
    hasAction: bool,
    isVague: bool,
    engineType: Option<string>)

  function AnalyzeQuery(text: string): Analysis {
    var t := Lower(text);
    Analysis(
      AnyOccurs(EngineTerms, t),
      AnyOccurs(ComponentTerms, t),
      AnyOccurs(ProblemTerms, t),
      AnyOccurs(ActionTerms, t),
      AnyOccurs(VagueTerms, t),
      GetEngineType(text))
  }

  /**
   * A text that mentions an engine word always names a definite engine:
   * every engine word is checked, in some form, by the engine-type rules
   * before the bare "engine" rule.
   */
  lemma EngineMentionNamesEngine(text: string)
    requires AnalyzeQuery(text).hasEngine
    ensures GetEngineType(text) == Some("main engine") || GetEngineType(text) == Some("auxiliary engine")
  {
    var t := Lower(text);
    var w :| w in EngineTerms && Occurs(w, t);
    if w != "main" && w != "me" {
      assert w in AuxiliaryTerms;
    }
  }

  /** The conversation state kept between two turns; a key the state lacks is `None`. */
  datatype ConversationState = ConversationState(
    awaiting: Option<string>,
    originalQuery: Option<string>,
    clarifiedEngine: Option<string>,
    clarifiedComponent: Option<string>)

  /**
   * What `add_missing_context` returns: either a question (no enhanced
   * query, the question awaited next, its message and what to remember) or
   * the enhanced query. A key the result lacks is `None`.
   */
  datatype ContextResult = ContextResult(
    enhancedQuery: Option<string>,
    needsClarification: bool,
    awaiting: Option<string>,
    message: Option<string>,
    originalQuery: Option<string>,
    clarifiedEngine: Option<string>,
    clarifiedComponent: Option<string>)

  function Ask(awaiting: string, message: string, original: string,
               engine: Option<string>, component: Option<string>): ContextResult
  {
    ContextResult(None, true, Some(awaiting), Some(message), Some(original), engine, component)
  }

  function Done(query: string): ContextResult {
    ContextResult(Some(query), false, None, None, None, None, None)
  }

  /** A result is a question or a final query, and a question always names what it waits for. */
  predicate WellShaped(r: ContextResult) {
    && (r.needsClarification <==> r.enhancedQuery.None?)
    && (r.needsClarification ==>
          r.awaiting.Some? && r.awaiting.value in {"engine", "component", "problem"}
          && r.message.Some? && r.originalQuery.Some?)
    && (!r.needsClarification ==> r.awaiting.None?)
  }

  /** The pending question, when the state is present and its question is a non-empty string. */
  function Pending(state: Option<ConversationState>): Option<string> {
    if state.Some? && state.value.awaiting.Some? && state.value.awaiting.value != "" then state.value.awaiting
    else None
  }

  const EngineQuestion := "Which engine are you referring to? (Main Engine or Auxiliary Engine)"
  const ProblemQuestion := "Please be more specific. Is it related to temperature, pressure, noise, starting issues, or something else?"

  function ComponentQuestion(engine: string): string {
    "What specific issue are you experiencing with the " + engine + "?"
  }

  /** How a fresh query (no pending question) is handled: the five rules in order. */
  function FreshContext(query: string): (r: ContextResult)
    ensures WellShaped(r)
  {
    var a := AnalyzeQuery(query);
    if a.isVague && !a.hasEngine && !a.hasComponent then
      Ask("engine", "I need more information. Which engine are you referring to?", query, None, None)
    else if a.engineType == Some("unspecified") then
      Ask("engine", EngineQuestion, query, None, None)
    else if (a.hasComponent || a.hasProblem || a.hasAction) && !a.hasEngine then
      Ask("engine", EngineQuestion, query, None, None)
    else if a.hasEngine && a.isVague && !a.hasComponent && !a.hasProblem then
      var engine := a.engineType.GetOr("None");
      Ask("component", ComponentQuestion(engine), query, a.engineType, None)
    else
      Done(query)
  }

  /**
   * `add_missing_context`: a pending engine, component or problem question
   * reads the query as its answer; anything else is a fresh query.
   */
  function AddMissingContext(query: string, state: Option<ConversationState>): (r: ContextResult)
    ensures WellShaped(r)
  {
    match Pending(state)
    case Some("engine") =>
      var engine := GetEngineType(query).GetOr("main engine");
      var original := state.value.originalQuery.GetOr("");
      var a := AnalyzeQuery(original);
      if a.isVague || (!a.hasComponent && !a.hasProblem) then
        Ask("component", ComponentQuestion(engine), original, Some(engine), None)
      else
        Done(engine + " " + original)
    case Some("component") =>
      var engine := state.value.clarifiedEngine.GetOr("engine");
      var original := state.value.originalQuery.GetOr("");
      var a := AnalyzeQuery(query);
      if a.isVague && !a.hasComponent then
        Ask("problem", ProblemQuestion, original, Some(engine), Some(query))
      else
        Done(engine + " " + query)
    case Some("problem") =>
      var engine := state.value.clarifiedEngine.GetOr("engine");
      var component := state.value.clarifiedComponent.GetOr("");
      Done(engine + " " + component + " " + query)
    case _ => FreshContext(query)
  }

  /** The state a caller passes back with the next answer: the fields of the last result. */
  function NextState(r: ContextResult): Option<ConversationState> {
    Some(ConversationState(r.awaiting, r.originalQuery, r.clarifiedEngine, r.clarifiedComponent))
  }

  /** Questions come in the order engine, component, problem; a final query ranks last. */
  function Stage(r: ContextResult): nat {
    if r.awaiting == Some("engine") then 1
    else if r.awaiting == Some("component") then 2
    else if r.awaiting == Some("problem") then 3
    else 4
  }

  /**
   * Each answer to a pending question moves the dialogue strictly forward:
   * an engine answer never leads to another engine question, a component
   * answer to a problem question at most, and a problem answer always
   * ends the dialogue. So at most three answers follow the first query.
   */
  lemma DialogueProgresses(r: ContextResult, answer: string)
    requires WellShaped(r) && r.needsClarification
    ensures Stage(AddMissingContext(answer, NextState(r))) > Stage(r)
    ensures r.awaiting == Some("problem") ==> !AddMissingContext(answer, NextState(r)).needsClarification
  {
  }

  /**
   * An engine answer: the engine it names, or "main engine" when it names
   * none; the original query is asked about again unless it already has
   * a component or problem and is not vague.
   */
  lemma EngineAnswer(answer: string, s: ConversationState)
    requires s.awaiting == Some("engine")
    ensures var r := AddMissingContext(answer, Some(s));
      var engine := if GetEngineType(answer).Some? then GetEngineType(answer).value else "main engine";
      var a := AnalyzeQuery(s.originalQuery.GetOr(""));
      && (r.needsClarification <==> a.isVague || (!a.hasComponent && !a.hasProblem))
      && (r.needsClarification ==> r.awaiting == Some("component") && r.clarifiedEngine == Some(engine))
      && (!r.needsClarification ==> r.enhancedQuery == Some(engine + " " + s.originalQuery.GetOr("")))
  {
  }

  /** A component answer that is vague and names no component leads to the problem question, remembering it. */
  lemma ComponentAnswer(answer: string, s: ConversationState)
    requires s.awaiting == Some("component")
    ensures var r := AddMissingContext(answer, Some(s));
      var a := AnalyzeQuery(answer);
      && (r.needsClarification <==> a.isVague && !a.hasComponent)
      && (r.needsClarification ==> r.awaiting == Some("problem") && r.clarifiedComponent == Some(answer))
      && (!r.needsClarification ==> r.enhancedQuery == Some(s.clarifiedEngine.GetOr("engine") + " " + answer))
  {
  }

  /**
   * With no pending question the rules apply in order: a vague query with
   * neither engine nor component, a bare "engine", or a component, problem
   * or action without an engine leads to the engine question; an engine
   * with only vague words leads to the component question, remembering a
   * definite engine; anything else is final as it stands.
   */
  lemma FreshRules(query: string, state: Option<ConversationState>)
    requires Pending(state) !in {Some("engine"), Some("component"), Some("problem")}
    ensures var r := AddMissingContext(query, state);
      var a := AnalyzeQuery(query);
      var askEngine := (a.isVague && !a.hasEngine && !a.hasComponent)
        || a.engineType == Some("unspecified")
        || ((a.hasComponent || a.hasProblem || a.hasAction) && !a.hasEngine);
      var askComponent := !askEngine && a.hasEngine && a.isVague && !a.hasComponent && !a.hasProblem;
      && (askEngine <==> r.awaiting == Some("engine"))
      && (askComponent <==> r.awaiting == Some("component"))
      && (askComponent ==> r.clarifiedEngine in {Some("main engine"), Some("auxiliary engine")})
      && (r.awaiting.Some? ==> r.originalQuery == Some(query))
      && (r.awaiting.None? <==> r.enhancedQuery == Some(query))
  {
    assert AddMissingContext(query, state) == FreshContext(query);
    FreshContextRules(query);
  }

  lemma FreshContextRules(query: string)
    ensures var r := FreshContext(query);
      var a := AnalyzeQuery(query);
      var askEngine := (a.isVague && !a.hasEngine && !a.hasComponent)
        || a.engineType == Some("unspecified")
        || ((a.hasComponent || a.hasProblem || a.hasAction) && !a.hasEngine);
      var askComponent := !askEngine && a.hasEngine && a.isVague && !a.hasComponent && !a.hasProblem;
      && (askEngine <==> r.awaiting == Some("engine"))
      && (askComponent <==> r.awaiting == Some("component"))
      && (askComponent ==> r.clarifiedEngine in {Some("main engine"), Some("auxiliary engine")})
      && (r.awaiting.Some? ==> r.originalQuery == Some(query))
      && (r.awaiting.None? <==> r.enhancedQuery == Some(query))
  {
    var a := AnalyzeQuery(query);
    if a.hasEngine {
      EngineMentionNamesEngine(query);
    }
  }

  /**
   * The "me" inside "something" counts as a mention of the main engine, so
   * "something", in any capitalisation, is asked for the component.
   */
  lemma SomethingMentionsMainEngine(text: string)
    requires Lower(text) == "something"
    ensures AnalyzeQuery(text).hasEngine
    ensures GetEngineType(text) == Some("main engine")
    ensures AddMissingContext(text, None).awaiting == Some("component")
  {
    SomethingFields(text);
    assert AddMissingContext(text, None) == FreshContext(text);
    FreshContextRules(text);
  }

  /** The classification of any text whose lower-case form is "something". */
  lemma SomethingFields(text: string)
    requires Lower(text) == "something"
    ensures var a := AnalyzeQuery(text);
      a.hasEngine && a.isVague && a.engineType == Some("main engine") && !a.hasComponent && !a.hasProblem
  {
    SomethingHasEngine();
    SomethingIsVague();
    SomethingNamesNoComponent();
    SomethingNamesNoProblem();
    assert OccursAt("me", "something", 2);
  }

  lemma SomethingIsVague()
    ensures AnyOccurs(VagueTerms, "something")
  {
    assert VagueTerms[7] == "something";
    assert "something" in VagueTerms;
    assert OccursAt("something", "something", 0);
    assert Occurs("something", "something");
  }

  lemma SomethingHasEngine()
    ensures AnyOccurs(EngineTerms, "something")
  {
    assert EngineTerms[5] == "me";
    assert "me" in EngineTerms;
    assert OccursAt("me", "something", 2);
    assert Occurs("me", "something");
  }

  lemma SomethingNamesNoComponent()
    ensures !AnyOccurs(ComponentTerms, "something")
  {
    var t := "something";
    SomethingLacksComponentChars();
    forall i | 0 <= i <= |t| - 5 ensures !OccursAt("noise", t, i) {
      assert t[i..i + 5][0] == t[i];
      assert t[i] != 'n';
    }
  }

  /** Every component term but "noise" has a character "something" lacks. */
  lemma SomethingLacksComponentChars()
    ensures forall term | term in ComponentTerms && term != "noise" :: !Occurs(term, "something")
  {
    var lacking := ["temperature", "pressure", "vibration", "smoke", "cooling", "fuel", "oil", "turbocharger", "exhaust", "bearing"];
    MissingChars(lacking, [5, 0, 0, 3, 0, 0, 2, 1, 1, 0], "something");
    assert ComponentTerms == lacking[..4] + ["noise"] + lacking[4..];
    assert forall term | term in ComponentTerms :: term == "noise" || term in lacking;
  }

  lemma SomethingNamesNoProblem()
    ensures !AnyOccurs(ProblemTerms, "something")
  {
    var t := "something";
    SomethingLacksProblemChars();
    forall i | 0 <= i <= |t| - 4 ensures !OccursAt("high", t, i) {
      assert t[i..i + 4][0] == t[i] && t[i..i + 4][2] == t[i + 2];
      assert t[i] != 'h' || t[i + 2] != 'g';
    }
    forall i | 0 <= i <= |t| - 3 ensures !OccursAt("hot", t, i) {
      assert t[i..i + 3][0] == t[i] && t[i..i + 3][1] == t[i + 1];
      assert t[i] != 'h' || t[i + 1] != 'o';
    }
  }

  /** Every problem term but "high" and "hot" has a character "something" lacks. */
  lemma SomethingLacksProblemChars()
    ensures forall term | term in ProblemTerms && term != "high" && term != "hot" :: !Occurs(term, "something")
  {
    var before := ["low", "excessive", "insufficient", "abnormal", "unusual", "leak", "leaking"];
    var after := ["cold", "loud", "rough", "black", "white", "blue"];
    MissingChars(before, [0, 1, 3, 0, 0, 0, 0], "something");
    MissingChars(after, [0, 0, 0, 0, 0, 0], "something");
    assert ProblemTerms == ["high"] + before + ["hot"] + after;
    assert forall term | term in ProblemTerms :: term == "high" || term == "hot" || term in before || term in after;
  }

  /** Each term lacks, at the position paired with it, a character the text does not hold. */
  lemma MissingChars(terms: seq<string>, at: seq<nat>, s: string)
    requires |at| == |terms|
    requires forall j | 0 <= j < |terms| :: at[j] < |terms[j]| && terms[j][at[j]] !in s
    ensures forall j | 0 <= j < |terms| :: !Occurs(terms[j], s)
  {
    forall j | 0 <= j < |terms| ensures !Occurs(terms[j], s) {
      MissingChar(terms[j], s, at[j]);
    }
  }

  /**
   * What `process_query` returns. It carries no clarified component: the
   * component remembered by a problem question is not passed on.
   */
  datatype QueryRecord = QueryRecord(
    originalQuery: string,
    normalizedQuery: string,
    processedQuery: string,
    enhancedQuery: Option<string>,
    needsClarification: bool,
    clarificationMessage: Option<string>,
    awaiting: Option<string>,
    originalQueryForClarification: Option<string>,
    clarifiedEngine: Option<string>)

  function Record(userQuery: string, normalized: string, processed: string, r: ContextResult): QueryRecord {
    QueryRecord(userQuery, normalized, processed, r.enhancedQuery, r.needsClarification,
                r.message, r.awaiting, r.originalQuery, r.clarifiedEngine)
  }

  /** `process_query`: normalize and process the query, then run the clarification step on the processed query. */
  method ProcessQuery(userQuery: string, state: Option<ConversationState>, kit: InputPreprocessing.Toolkit)
    returns (rec: QueryRecord)
    ensures rec.normalizedQuery == InputPreprocessing.Normalize(userQuery)
    ensures rec.processedQuery == InputPreprocessing.ProcessTokens(kit.tokenize(rec.normalizedQuery), kit)
    ensures rec == Record(userQuery, rec.normalizedQuery, rec.processedQuery, AddMissingContext(rec.processedQuery, state))
    ensures rec.originalQuery == userQuery
    ensures rec.needsClarification <==> rec.enhancedQuery.None?
  {
    var processed, normalized := InputPreprocessing.PreprocessUserQuery(userQuery, kit);
    var context := AddMissingContext(processed, state);
    rec := Record(userQuery, normalized, processed, context);
  }

  /** The state a caller can rebuild from a record: the component is not among its fields. */
  function StateFromRecord(rec: QueryRecord): Option<ConversationState> {
    Some(ConversationState(rec.awaiting, rec.originalQueryForClarification, rec.clarifiedEngine, None))
  }

  /**
   * Because the record drops the component, a problem question answered
   * through a rebuilt state yields "<engine>  <answer>" with an empty
   * component, although the context step had remembered one.
   */
  lemma ComponentLostThroughRecord(rec: QueryRecord, r: ContextResult, answer: string)
    requires r.awaiting == Some("problem") && r.clarifiedComponent.Some?
    requires rec == Record(rec.originalQuery, rec.normalizedQuery, rec.processedQuery, r)
    ensures AddMissingContext(answer, NextState(r)).enhancedQuery
      == Some(r.clarifiedEngine.GetOr("engine") + " " + r.clarifiedComponent.value + " " + answer)
    ensures AddMissingContext(answer, StateFromRecord(rec)).enhancedQuery
      == Some(r.clarifiedEngine.GetOr("engine") + "  " + answer)
  {
    assert Pending(NextState(r)) == Some("problem");
    assert Pending(StateFromRecord(rec)) == Some("problem");
    var engine := r.clarifiedEngine.GetOr("engine");
    assert engine + " " + "" + " " + answer == engine + "  " + answer;
  }
}
