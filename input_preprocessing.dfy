/**
 * The query normalizer of the diagnosis assistant: lower-casing, splitting
 * numbers from units, collapsing whitespace, rewriting contractions, spell
 * correction of single tokens, abbreviation expansion, stop-word removal
 * that keeps the words carrying meaning for a fault report, lemmatizing
 * and joining a negation to the word after it.
 *
 * The natural-language toolkit (tokenizer, English stop-word list,
 * lemmatizer) and the spelling dictionary lookup are parameters.
 */
module InputPreprocessing {
  import opened Wrappers
  import opened Text

  /** The marine vocabulary: fuels, engine terms, units, gases and components. */
  predicate MarineTerm(w: string) {
    match w
    case "hfo" | "mdo" | "lshfo" | "lsfo" | "vlsfo" | "mgb" | "mcr" | "rpm" | "turbocharger"
      | "scavenge" | "purifier" | "aux" | "auxiliary" | "mgo" | "lub" | "lube" | "fo" | "lo"
      | "kw" | "kwh" | "mlb" | "ppm" | "tbn" | "tbnb" | "hvac" | "me" | "ae" | "dg" | "genset"
      | "lpg" | "lng" | "co2" | "nox" | "sox" | "psi" | "mpa" | "bar" | "kpa"
      | "crankcase" | "scavenging" | "crosshead" | "turbine" | "compressor" | "propeller"
      | "injector" | "boiler" | "economizer" | "evaporator" | "viscosity" | "classifier"
      | "cooler" | "intercooler" | "aftercooler" => true
    case _ => false
  }

  /** The engine and equipment makers. */
  predicate ManufacturerTerm(w: string) {
    match w
    case "wartsila" | "man" | "sulzer" | "yanmar" | "caterpillar" | "cat" | "mak" | "bergen"
      | "rolls-royce" | "rolls" | "royce" | "mitsubishi" | "daihatsu" | "cummins" | "deutz"
      | "pielstick" | "abb" | "woodward" | "alfa" | "laval" | "alfalaval" => true
    case _ => false
  }

  /** Words the spelling corrector never touches: the union of the two vocabularies. */
  predicate DomainTerm(w: string) {
    MarineTerm(w) || ManufacturerTerm(w)
  }

  /**
   * The abbreviation table: the expansion of a token, already split into
   * its words, or `None` when the token is not an abbreviation.
   */
  function Abbreviation(token: string): Option<seq<string>> {
    match token
    case "temp" => Some(["temperature"])
    case "aux" => Some(["auxiliary"])
    case "lub" => Some(["lubricating"])
    case "lube" => Some(["lubricating"])
    case "fo" => Some(["fuel", "oil"])
    case "lo" => Some(["lubricating", "oil"])
    case "me" => Some(["main", "engine"])
    case "ae" => Some(["auxiliary", "engine"])
    case "dg" => Some(["diesel", "generator"])
    case "fw" => Some(["fresh", "water"])
    case "sw" => Some(["sea", "water"])
    case "t/c" => Some(["turbocharger"])
    case "tc" => Some(["turbocharger"])
    case "hx" => Some(["heat", "exchanger"])
    case "cw" => Some(["cooling", "water"])
    case "jw" => Some(["jacket", "water"])
    case "ps" => Some(["port", "side"])
    case "sb" => Some(["starboard"])
    case "stbd" => Some(["starboard"])
    case "hyd" => Some(["hydraulic"])
    case "sys" => Some(["system"])
    case "gen" => Some(["generator"])
    case "alt" => Some(["alternator"])
    case "pres" => Some(["pressure"])
    case "prs" => Some(["pressure"])
    case "press" => Some(["pressure"])
    case "vib" => Some(["vibration"])
    case "rpm" => Some(["revolutions", "per", "minute"])
    case "rev" => Some(["revolutions"])
    case "exh" => Some(["exhaust"])
    case "prop" => Some(["propeller"])
    case "eng" => Some(["engine"])
    case "diff" => Some(["differential"])
    case "temps" => Some(["temperatures"])
    case "op" => Some(["operating"])
    case _ => None
  }

  /** Every word that occurs in some expansion. */
  predicate ExpansionWord(w: string) {
    match w
    case "temperature" | "auxiliary" | "lubricating" | "fuel" | "oil" | "main" | "engine" | "diesel"
      | "generator" | "fresh" | "water" | "sea" | "turbocharger" | "heat" | "exchanger" | "cooling"
      | "jacket" | "port" | "side" | "starboard" | "hydraulic" | "system" | "alternator" | "pressure"
      | "vibration" | "revolutions" | "per" | "minute" | "exhaust" | "propeller" | "differential"
      | "temperatures" | "operating" => true
    case _ => false
  }

  /** Stop words that are kept because they change what a fault report means. */
  const ImportantStopwords: set<string> := {
    "not", "no", "nor", "than", "too", "very", "against", "down", "up", "over",
    "under", "is", "has", "have", "had"
  }

  /** One answer of the spelling dictionary: a known word and its edit distance. */
  datatype Suggestion = Suggestion(term: string, distance: int)

  /**
   * The language toolkit the normalizer calls: the tokenizer, the closest
   * dictionary suggestions for a word (best first), the English stop-word
   * list and the lemmatizer.
   */
  datatype Toolkit = Toolkit(
    tokenize: string -> seq<string>,
    lookup: string -> seq<Suggestion>,
    stopwords: set<string>,
    lemmatize: string -> string)

  /** The tokens `spell_correct_word` returns untouched before any lookup. */
  predicate Protected(word: string) {
    DomainTerm(word) || |word| <= 2 || AllDigits(word) || HasDigit(word)
  }

  /** The run-together contractions and what they are spelled out as. */
  const Contractions: map<string, string> :=
    map["wont" := "will not", "cant" := "cannot", "isnt" := "is not", "doesnt" := "does not"]

  /**
   * One token through the spelling corrector: protected tokens are kept,
   * the four run-together contractions are spelled out, and otherwise the
   * best dictionary suggestion is taken when it is at most two edits away.
   */
  function SpellCorrectWord(word: string, lookup: string -> seq<Suggestion>): (r: string)
    ensures Protected(word) ==> r == word
    ensures !Protected(word) && word in Contractions ==> r == Contractions[word]
    ensures !Protected(word) && word !in Contractions && lookup(word) != [] && lookup(word)[0].distance <= 2
      ==> r == lookup(word)[0].term
    ensures !Protected(word) && word !in Contractions && (lookup(word) == [] || lookup(word)[0].distance > 2)
      ==> r == word
  {
    if Protected(word) then word
    else if word == "wont" then "will not"
    else if word == "cant" then "cannot"
    else if word == "isnt" then "is not"
    else if word == "doesnt" then "does not"
    else
      var suggestions := lookup(word);
      if suggestions != [] && suggestions[0].distance <= 2 then suggestions[0].term else word
  }

  /**
   * The dictionary is consulted only for unprotected words that are not a
   * contraction, and its answer is used only within two edits.
   */
  lemma SpellCorrectUsesLookupOnlyWhenNeeded(word: string, l1: string -> seq<Suggestion>, l2: string -> seq<Suggestion>)
    requires Protected(word) || word in Contractions
      || (l1(word) == l2(word))
      || ((l1(word) == [] || l1(word)[0].distance > 2) && (l2(word) == [] || l2(word)[0].distance > 2))
    ensures SpellCorrectWord(word, l1) == SpellCorrectWord(word, l2)
  {
  }

  /** The four contractions are spelled out whatever the dictionary says. */
  lemma ContractionsSpelledOut(lookup: string -> seq<Suggestion>)
    ensures SpellCorrectWord("wont", lookup) == "will not"
    ensures SpellCorrectWord("cant", lookup) == "cannot"
    ensures SpellCorrectWord("isnt", lookup) == "is not"
    ensures SpellCorrectWord("doesnt", lookup) == "does not"
  {
    ContractionsNotProtected();
  }

  lemma ContractionsNotProtected()
    ensures !Protected("wont") && !Protected("cant") && !Protected("isnt") && !Protected("doesnt")
  {
    ContractionNotProtected("wont");
    ContractionNotProtected("cant");
    ContractionNotProtected("isnt");
    ContractionNotProtected("doesnt");
  }

  lemma ContractionNotProtected(w: string)
    requires w == "wont" || w == "cant" || w == "isnt" || w == "doesnt"
    ensures !Protected(w)
  {
    assert !IsDigit(w[0]);
  }

  // ---------------------------------------------------------------------
  // The normalized text

  /** The contraction rewrites applied to the normalized text, in order. */
  function RewriteContractions(t: string): string {
    ReplaceAll(ReplaceAll(ReplaceAll(t, "can't", "cannot"), "won't", "will not"), "isn't", "is not")
  }

  /**
   * The normalized text: lower case, a space between a number and a unit
   * written against it, each whitespace run one space, and the three
   * apostrophe contractions spelled out.
   */
  function Normalize(query: string): string {
    RewriteContractions(Collapse(RangeSplit(UnitSplit(Lower(query)))))
  }

  /** The contraction rewrites and their neighbours cannot overlap, so none survives another rewrite. */
  lemma ContractionsDoNotOverlap()
    ensures NoOverlap("can't", "cannot") && NoOverlap("can't", "will not") && NoOverlap("can't", "is not")
    ensures NoOverlap("won't", "will not") && NoOverlap("won't", "is not")
    ensures NoOverlap("isn't", "is not")
  {
    CantDoesNotOverlap();
    WontDoesNotOverlap();
    IsntDoesNotOverlap();
  }

  lemma CantDoesNotOverlap()
    ensures NoOverlap("can't", "cannot") && NoOverlap("can't", "will not") && NoOverlap("can't", "is not")
  {
    assert NoOverlap("can't", "cannot") by {
      assert NoOverlapFrom("can't", "cannot", 2);
      assert NoOverlapFrom("can't", "cannot", -1);
      assert NoOverlapFrom("can't", "cannot", -5);
      NoOverlapFromSound("can't", "cannot", -5);
    }
    assert NoOverlap("can't", "will not") by {
      assert NoOverlapFrom("can't", "will not", 2);
      assert NoOverlapFrom("can't", "will not", -1);
      assert NoOverlapFrom("can't", "will not", -4);
      assert NoOverlapFrom("can't", "will not", -7);
      NoOverlapFromSound("can't", "will not", -7);
    }
    assert NoOverlap("can't", "is not") by {
      assert NoOverlapFrom("can't", "is not", 2);
      assert NoOverlapFrom("can't", "is not", -1);
      assert NoOverlapFrom("can't", "is not", -5);
      NoOverlapFromSound("can't", "is not", -5);
    }
  }

  lemma WontDoesNotOverlap()
    ensures NoOverlap("won't", "will not") && NoOverlap("won't", "is not")
  {
    assert NoOverlap("won't", "will not") by {
      assert NoOverlapFrom("won't", "will not", 2);
      assert NoOverlapFrom("won't", "will not", -1);
      assert NoOverlapFrom("won't", "will not", -4);
      assert NoOverlapFrom("won't", "will not", -7);
      NoOverlapFromSound("won't", "will not", -7);
    }
    assert NoOverlap("won't", "is not") by {
      assert NoOverlapFrom("won't", "is not", 2);
      assert NoOverlapFrom("won't", "is not", -1);
      assert NoOverlapFrom("won't", "is not", -5);
      NoOverlapFromSound("won't", "is not", -5);
    }
  }

  lemma IsntDoesNotOverlap()
    ensures NoOverlap("isn't", "is not")
  {
    assert NoOverlapFrom("isn't", "is not", 2);
    assert NoOverlapFrom("isn't", "is not", -1);
    assert NoOverlapFrom("isn't", "is not", -5);
    NoOverlapFromSound("isn't", "is not", -5);
  }

  /** The shape facts the normalized text has, kept by one contraction rewrite. */
  predicate Tidy(t: string) {
    && NoUpper(t)
    && NoPair(t, DigitLetter)
    && NoPair(t, SpacePair)
    && OnlyPlainSpaces(t)
  }

  /** Lower-case words without digits, separated by single spaces. */
  predicate PlainPhrase(r: string) {
    && |r| > 0 && Tidy(r)
    && (forall i | 0 <= i < |r| :: !IsDigit(r[i]))
    && IsLetter(r[0]) && IsLetter(Last(r))
  }

  lemma SpelledOutArePlain()
    ensures PlainPhrase("cannot") && PlainPhrase("will not") && PlainPhrase("is not")
  {
    var a, b, c := "cannot", "will not", "is not";
    assert LowerWords(a) by {
      assert forall i | 0 <= i < |a| :: 'a' <= a[i] <= 'z';
    }
    assert LowerWords(b) by {
      assert forall i | 0 <= i < |b| :: i != 4 ==> 'a' <= b[i] <= 'z';
    }
    assert LowerWords(c) by {
      assert forall i | 0 <= i < |c| :: i != 2 ==> 'a' <= c[i] <= 'z';
    }
    LowerWordsPlain(a);
    LowerWordsPlain(b);
    LowerWordsPlain(c);
  }

  /** Lower-case ASCII letters and single inner spaces. */
  predicate LowerWords(r: string) {
    && |r| > 0 && r[0] != ' ' && r[|r| - 1] != ' '
    && (forall i | 0 <= i < |r| :: 'a' <= r[i] <= 'z' || r[i] == ' ')
    && (forall i | 0 <= i < |r| - 1 :: r[i] == ' ' ==> r[i + 1] != ' ')
  }

  lemma LowerWordsPlain(r: string)
    requires LowerWords(r)
    ensures PlainPhrase(r)
  {
  }

  /** Rewriting a word into a plain phrase keeps the text tidy. */
  lemma RewriteKeepsTidy(t: string, p: string, r: string)
    requires Tidy(t) && |p| > 0 && PlainPhrase(r) && IsLetter(p[0])
    ensures Tidy(ReplaceAll(t, p, r))
  {
    var out := ReplaceAll(t, p, r);
    ReplaceAllNoUpper(t, p, r);
    ReplaceAllNoPair(t, p, r, DigitLetter);
    ReplaceAllNoPair(t, p, r, SpacePair);
    ReplaceAllChars(t, p, r);
    forall i | 0 <= i < |out| && IsSpace(out[i]) ensures out[i] == ' ' {
      assert out[i] in t || out[i] in r;
    }
  }

  /** Lower-casing, the unit split and the whitespace collapse leave a tidy text. */
  lemma {:induction false} CollapsedTextTidy(query: string)
    ensures Tidy(Collapse(RangeSplit(UnitSplit(Lower(query)))))
  {
    var t0 := Lower(query);
    LowerIsLower(query);
    var t1 := UnitSplit(t0);
    UnitSplitNoDigitLetter(t0);
    SpaceBeforeChars(t0, UnitBoundary, 0);
    assert NoUpper(t1) by {
      forall i | 0 <= i < |t1| ensures !IsUpper(t1[i]) {
        assert t1[i] in t0 || t1[i] == ' ';
      }
    }
    RangeSplitIdle(t1);
    var t3 := Collapse(t1);
    CollapseNoPair(t1, DigitLetter);
    CollapseNoSpacePair(t1);
    CollapseChars(t1);
    assert NoUpper(t3) by {
      forall i | 0 <= i < |t3| ensures !IsUpper(t3[i]) {
        assert t3[i] in t3;
      }
    }
  }

  /** The contraction rewrites keep a text tidy. */
  lemma RewriteContractionsTidy(t3: string)
    requires Tidy(t3)
    ensures Tidy(RewriteContractions(t3))
  {
    var t4 := ReplaceAll(t3, "can't", "cannot");
    var t5 := ReplaceAll(t4, "won't", "will not");
    SpelledOutArePlain();
    RewriteKeepsTidy(t3, "can't", "cannot");
    RewriteKeepsTidy(t4, "won't", "will not");
    RewriteKeepsTidy(t5, "isn't", "is not");
  }

  /** The contraction rewrites leave none of the three contractions. */
  lemma RewriteContractionsRemoves(t3: string)
    ensures !Occurs("can't", RewriteContractions(t3))
    ensures !Occurs("won't", RewriteContractions(t3))
    ensures !Occurs("isn't", RewriteContractions(t3))
  {
    var t4 := ReplaceAll(t3, "can't", "cannot");
    var t5 := ReplaceAll(t4, "won't", "will not");
    ContractionsDoNotOverlap();
    ReplaceAllNoNewOccurrence(t3, "can't", "cannot", "can't");
    ReplaceAllNoNewOccurrence(t4, "won't", "will not", "can't");
    ReplaceAllNoNewOccurrence(t4, "won't", "will not", "won't");
    ReplaceAllNoNewOccurrence(t5, "isn't", "is not", "can't");
    ReplaceAllNoNewOccurrence(t5, "isn't", "is not", "won't");
    ReplaceAllNoNewOccurrence(t5, "isn't", "is not", "isn't");
  }

  /**
   * The normalized text is lower case, has no digit directly followed by a
   * letter, has no two neighbouring whitespace characters and no whitespace
   * other than the space, and contains none of "can't", "won't", "isn't".
   */
  lemma NormalizeFacts(query: string)
    ensures Tidy(Normalize(query))
    ensures !Occurs("can't", Normalize(query))
    ensures !Occurs("won't", Normalize(query))
    ensures !Occurs("isn't", Normalize(query))
  {
    var t3 := Collapse(RangeSplit(UnitSplit(Lower(query))));
    CollapsedTextTidy(query);
    RewriteContractionsTidy(t3);
    RewriteContractionsRemoves(t3);
  }

  /** Normalizing a normalized text gives it back unchanged. */
  lemma NormalizeIdempotent(query: string)
    ensures Normalize(Normalize(query)) == Normalize(query)
  {
    var t := Normalize(query);
    NormalizeFacts(query);
    LowerIsLower(t);
    UnitSplitIdle(t);
    RangeSplitIdle(t);
    CollapseId(t);
    ReplaceAllAbsentId(t, "can't", "cannot");
    ReplaceAllAbsentId(t, "won't", "will not");
    ReplaceAllAbsentId(t, "isn't", "is not");
  }

  /** A number written against its unit is split from it, also after a range. */
  lemma UnitSplitExamples()
    ensures UnitSplit("10bar") == "10 bar"
    ensures UnitSplit("10-15bar") == "10-15 bar"
  {
    UnitSplitNumber();
    UnitSplitRange();
  }

  lemma UnitSplitNumber()
    ensures UnitSplit("10bar") == "10 bar"
  {
    var s := "10bar";
    assert SpaceBefore(s, UnitBoundary, 4) == "r";
    assert SpaceBefore(s, UnitBoundary, 3) == "ar";
    assert UnitBoundary(s, 2);
    assert SpaceBefore(s, UnitBoundary, 2) == " bar";
    assert SpaceBefore(s, UnitBoundary, 1) == "0 bar";
  }

  lemma UnitSplitRange()
    ensures UnitSplit("10-15bar") == "10-15 bar"
  {
    var t := "10-15bar";
    UnitSplitRangeTail();
    assert SpaceBefore(t, UnitBoundary, 3) == "15 bar";
    assert SpaceBefore(t, UnitBoundary, 2) == "-15 bar";
    assert SpaceBefore(t, UnitBoundary, 1) == "0-15 bar";
  }

  lemma UnitSplitRangeTail()
    ensures SpaceBefore("10-15bar", UnitBoundary, 4) == "5 bar"
  {
    var t := "10-15bar";
    assert SpaceBefore(t, UnitBoundary, 7) == "r";
    assert SpaceBefore(t, UnitBoundary, 6) == "ar";
    assert UnitBoundary(t, 5);
    assert SpaceBefore(t, UnitBoundary, 5) == " bar";
  }

  // ---------------------------------------------------------------------
  // Token pipeline

  /** What one token becomes in the abbreviation pass. */
  function ExpandOne(token: string): seq<string> {
    match Abbreviation(token)
    case Some(words) => words
    case None => [token]
  }

  /**
   * The abbreviation pass over a token list: every abbreviation is replaced
   * in place by the words of its expansion and every other token is kept.
   */
  function Expand(tokens: seq<string>): seq<string> {
    if tokens == [] then []
    else Expand(tokens[..|tokens| - 1]) + ExpandOne(tokens[|tokens| - 1])
  }

  lemma {:induction false} ExpandAppend(a: seq<string>, b: seq<string>)
    ensures Expand(a + b) == Expand(a) + Expand(b)
    decreases |b|
  {
    if b != [] {
      var init, last := b[..|b| - 1], b[|b| - 1];
      assert (a + b)[..|a + b| - 1] == a + init;
      assert (a + b)[|a + b| - 1] == last;
      ExpandAppend(a, init);
      assert Expand(a + b) == Expand(a + init) + ExpandOne(last);
      assert Expand(b) == Expand(init) + ExpandOne(last);
    } else {
      assert a + b == a;
    }
  }

  /** No word of any expansion is itself an abbreviation. */
  lemma ExpansionWordsAreNotAbbreviations(token: string)
    ensures forall w | w in ExpandOne(token) :: Abbreviation(w).None?
  {
    match Abbreviation(token)
    case Some(words) =>
      ExpansionsUseExpansionWords(token);
      forall w | w in words ensures Abbreviation(w).None? {
        ExpansionWordNotAbbreviation(w);
      }
    case None =>
      assert ExpandOne(token) == [token];
  }

  lemma ExpansionsUseExpansionWords(token: string)
    requires Abbreviation(token).Some?
    ensures forall w | w in Abbreviation(token).value :: ExpansionWord(w)
  {
  }

  lemma ExpansionWordNotAbbreviation(w: string)
    requires ExpansionWord(w)
    ensures Abbreviation(w).None?
  {
    if |w| > 5 {
      LongWordNotAbbreviation(w);
    }
  }

  /** Every abbreviation is at most five characters long. */
  lemma LongWordNotAbbreviation(w: string)
    requires |w| > 5
    ensures Abbreviation(w).None?
  {
  }

  /**
   * Expansion is a single pass that leaves nothing to expand: no token of
   * the result is an abbreviation, so expanding again changes nothing.
   */
  lemma {:induction false} ExpandLeavesNoAbbreviation(tokens: seq<string>)
    ensures forall w | w in Expand(tokens) :: Abbreviation(w).None?
    ensures Expand(Expand(tokens)) == Expand(tokens)
    decreases |tokens|
  {
    if tokens != [] {
      var init := tokens[..|tokens| - 1];
      var last := ExpandOne(tokens[|tokens| - 1]);
      ExpandLeavesNoAbbreviation(init);
      ExpansionWordsAreNotAbbreviations(tokens[|tokens| - 1]);
      ExpandAppend(Expand(init), last);
      ExpandNothingToExpand(last);
    }
  }

  /** A list without abbreviations is its own expansion. */
  lemma {:induction false} ExpandNothingToExpand(tokens: seq<string>)
    requires forall w | w in tokens :: Abbreviation(w).None?
    ensures Expand(tokens) == tokens
    decreases |tokens|
  {
    if tokens != [] {
      var init := tokens[..|tokens| - 1];
      ExpandNothingToExpand(init);
      assert tokens == init + [tokens[|tokens| - 1]];
    }
  }

  /** The token list without the stop words that are not in the important set. */
  function DropStopwords(tokens: seq<string>, stopwords: set<string>): seq<string> {
    if tokens == [] then []
    else
      var t := tokens[|tokens| - 1];
      DropStopwords(tokens[..|tokens| - 1], stopwords)
        + (if t in stopwords - ImportantStopwords then [] else [t])
  }

  /**
   * Stop-word removal keeps a token exactly when it is not a stop word or
   * is an important one, and keeps every occurrence of an important word.
   */
  lemma DropStopwordsKeepsImportant(tokens: seq<string>, stopwords: set<string>)
    ensures forall t :: t in DropStopwords(tokens, stopwords) <==> t in tokens && (t !in stopwords || t in ImportantStopwords)
    ensures forall t | t in ImportantStopwords :: multiset(DropStopwords(tokens, stopwords))[t] == multiset(tokens)[t]
  {
    DropStopwordsMembers(tokens, stopwords);
    forall t | t in ImportantStopwords
      ensures multiset(DropStopwords(tokens, stopwords))[t] == multiset(tokens)[t]
    {
      DropStopwordsCount(tokens, stopwords, t);
    }
  }

  lemma {:induction false} DropStopwordsMembers(tokens: seq<string>, stopwords: set<string>)
    ensures forall t :: t in DropStopwords(tokens, stopwords) <==> t in tokens && (t !in stopwords || t in ImportantStopwords)
    decreases |tokens|
  {
    if tokens != [] {
      var init := tokens[..|tokens| - 1];
      DropStopwordsMembers(init, stopwords);
      assert tokens == init + [tokens[|tokens| - 1]];
    }
  }

  lemma {:induction false} DropStopwordsCount(tokens: seq<string>, stopwords: set<string>, t: string)
    requires t !in stopwords - ImportantStopwords
    ensures multiset(DropStopwords(tokens, stopwords))[t] == multiset(tokens)[t]
    decreases |tokens|
  {
    if tokens != [] {
      var init := tokens[..|tokens| - 1];
      var x := tokens[|tokens| - 1];
      var kept := if x in stopwords - ImportantStopwords then [] else [x];
      DropStopwordsCount(init, stopwords, t);
      assert tokens == init + [x];
      assert DropStopwords(tokens, stopwords) == DropStopwords(init, stopwords) + kept;
      assert multiset(tokens) == multiset(init) + multiset{x};
      assert multiset(DropStopwords(tokens, stopwords)) == multiset(DropStopwords(init, stopwords)) + multiset(kept);
    }
  }

  function MapLookup(tokens: seq<string>, lookup: string -> seq<Suggestion>): (r: seq<string>)
    ensures |r| == |tokens| && forall i | 0 <= i < |tokens| :: r[i] == SpellCorrectWord(tokens[i], lookup)
  {
    seq(|tokens|, i requires 0 <= i < |tokens| => SpellCorrectWord(tokens[i], lookup))
  }

  function MapLemma(tokens: seq<string>, lemmatize: string -> string): (r: seq<string>)
    ensures |r| == |tokens| && forall i | 0 <= i < |tokens| :: r[i] == lemmatize(tokens[i])
  {
    seq(|tokens|, i requires 0 <= i < |tokens| => lemmatize(tokens[i]))
  }

  /** Each negation is glued to the following word with an underscore. */
  function JoinNegations(t: string): string {
    ReplaceAll(ReplaceAll(ReplaceAll(t, "not ", "not_"), "no ", "no_"), "n't ", "not_")
  }

  lemma NegationsDoNotOverlap()
    ensures NoOverlap("not ", "not_") && NoOverlap("not ", "no_") && NoOverlap("no ", "no_")
    ensures NoOverlap("no ", "not_") && NoOverlap("n't ", "not_")
  {
    assert NoOverlapFrom("not ", "not_", -3);
    NoOverlapFromSound("not ", "not_", -3);
    assert NoOverlapFrom("not ", "no_", -2);
    NoOverlapFromSound("not ", "no_", -2);
    assert NoOverlapFrom("no ", "no_", -2);
    NoOverlapFromSound("no ", "no_", -2);
    assert NoOverlapFrom("no ", "not_", -3);
    NoOverlapFromSound("no ", "not_", -3);
    assert NoOverlapFrom("n't ", "not_", -3);
    NoOverlapFromSound("n't ", "not_", -3);
  }

  /**
   * After negation joining no "not ", "no " or "n't " is left, and the
   * text keeps its length (each rewrite swaps a space for an underscore).
   */
  lemma JoinNegationsFacts(t: string)
    ensures !Occurs("not ", JoinNegations(t))
    ensures !Occurs("no ", JoinNegations(t))
    ensures !Occurs("n't ", JoinNegations(t))
    ensures |JoinNegations(t)| == |t|
  {
    var t1 := ReplaceAll(t, "not ", "not_");
    var t2 := ReplaceAll(t1, "no ", "no_");
    NegationsDoNotOverlap();
    ReplaceAllNoNewOccurrence(t, "not ", "not_", "not ");
    ReplaceAllNoNewOccurrence(t1, "no ", "no_", "not ");
    ReplaceAllNoNewOccurrence(t1, "no ", "no_", "no ");
    ReplaceAllNoNewOccurrence(t2, "n't ", "not_", "not ");
    ReplaceAllNoNewOccurrence(t2, "n't ", "not_", "no ");
    ReplaceAllNoNewOccurrence(t2, "n't ", "not_", "n't ");
    ReplaceAllLength(t, "not ", "not_");
    ReplaceAllLength(t1, "no ", "no_");
    ReplaceAllLength(t2, "n't ", "not_");
  }

  /** "not" followed by a single word is glued to that word. */
  lemma JoinNegationsWord(w: string)
    requires ' ' !in w
    ensures JoinNegations("not " + w) == "not_" + w
  {
    var s := "not " + w;
    assert s[..4] == "not " && s[4..] == w;
    ReplaceAllAbsent(w, "not ", "not_", ' ');
    var t := "not_" + w;
    assert ReplaceAll(s, "not ", "not_") == t;
    assert ' ' !in t by {
      assert forall i | 4 <= i < |t| :: t[i] == w[i - 4];
    }
    ReplaceAllAbsent(t, "no ", "no_", ' ');
    ReplaceAllAbsent(t, "n't ", "not_", ' ');
  }

  /** The processed query for a token list that came out of the tokenizer. */
  function ProcessTokens(tokens: seq<string>, kit: Toolkit): string {
    var expanded := Expand(MapLookup(tokens, kit.lookup));
    var kept := DropStopwords(expanded, kit.stopwords);
    JoinNegations(Join(MapLemma(kept, kit.lemmatize), " "))
  }

  /**
   * `preprocess_user_query`: returns the processed query and the normalized
   * text, in that order. The abbreviation pass is the loop that extends the
   * expanded token list.
   */
  method PreprocessUserQuery(query: string, kit: Toolkit) returns (processed: string, normalized: string)
    ensures normalized == Normalize(query)
    ensures processed == ProcessTokens(kit.tokenize(Normalize(query)), kit)
  {
    var text := Lower(query);
    text := UnitSplit(text);
    text := RangeSplit(text);
    text := Collapse(text);
    text := ReplaceAll(text, "can't", "cannot");
    text := ReplaceAll(text, "won't", "will not");
    text := ReplaceAll(text, "isn't", "is not");
    var tokens := kit.tokenize(text);
    var corrected := MapLookup(tokens, kit.lookup);
    var expanded: seq<string> := [];
    var i := 0;
    while i < |corrected|
      invariant 0 <= i <= |corrected|
      invariant expanded == Expand(corrected[..i])
    {
      var token := corrected[i];
      match Abbreviation(token) {
        case Some(words) =>
          expanded := expanded + words;
        case None =>
          expanded := expanded + [token];
      }
      assert corrected[..i + 1][..i] == corrected[..i];
      i := i + 1;
    }
    assert corrected[..i] == corrected;
    assert text == Normalize(query);
    var filtered := DropStopwords(expanded, kit.stopwords);
    var lemmatized := MapLemma(filtered, kit.lemmatize);
    processed := Join(lemmatized, " ");
    processed := ReplaceAll(processed, "not ", "not_");
    processed := ReplaceAll(processed, "no ", "no_");
    processed := ReplaceAll(processed, "n't ", "not_");
    normalized := text;
  }
}
