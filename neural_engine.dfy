/**
 * The semantic engine: every fault gets an embedding of its name and
 * symptoms, and a query returns the faults whose similarity to the query's
 * embedding exceeds 0.3, ranked by similarity. The sentence encoder and
 * the cosine similarity are parameters of the engine.
 */
module NeuralEngine {
  import opened Wrappers
  import opened Text
  import opened Faults
  import opened Ranking
  import opened Dicts

  type Embedding = seq<real>

  /** What the table keeps for one fault name. */
  datatype TableEntry = TableEntry(embedding: Embedding, fault: FaultDoc)

  /** The exceptions a malformed record raises while the table is built. */
  datatype NeuralError =
    | KeyError(key: string)   // `fault` is a mapping without `name`
    | TypeError               // `fault` holds something other than a mapping

  type Table = Dict<string, TableEntry>

  /** Relevance threshold: only similarities strictly above it are returned. */
  const Threshold: real := 0.3

  /** The items, each followed by one space, as `text += item + " "` builds them. */
  function Suffixed(items: seq<string>): string {
    if items == [] then "" else Suffixed(items[..|items| - 1]) + items[|items| - 1] + " "
  }

  /** The text a fault is embedded from: its name, then its symptoms, each followed by a space. */
  function EmbeddingText(name: string, symptoms: seq<string>): string {
    Suffixed([name] + symptoms)
  }

  /** A table entry is keyed by its record's name and holds the embedding of that record's text. */
  predicate WellFormedTable(t: Table, encode: string -> Embedding) {
    forall k | k in t.values ::
      && t.values[k].fault.fault.Entry?
      && t.values[k].fault.fault.body.name == Some(k)
      && t.values[k].embedding == encode(EmbeddingText(k, t.values[k].fault.fault.body.symptoms.GetOr([])))
  }

  /** One step of `_precompute_embeddings`: skip a record without `fault`, else store it under its name. */
  function AddFault(t: Table, d: FaultDoc, encode: string -> Embedding): (r: Result<Table, NeuralError>)
    requires t.Valid()
    ensures r.Success? ==> r.value.Valid()
    ensures r.Success? && WellFormedTable(t, encode) ==> WellFormedTable(r.value, encode)
  {
    match d.fault
    case Missing => Success(t)
    case NotMapping => Failure(TypeError)
    case Entry(body) =>
      if body.name.None? then Failure(KeyError("name"))
      else
        var name := body.name.value;
        Success(t.Put(name, TableEntry(encode(EmbeddingText(name, body.symptoms.GetOr([]))), d)))
  }

  /** `_precompute_embeddings` over a corpus, starting from table `t`; the first failing record decides. */
  function BuildTable(t: Table, docs: seq<FaultDoc>, encode: string -> Embedding): (r: Result<Table, NeuralError>)
    requires t.Valid()
    ensures r.Success? ==> r.value.Valid()
    ensures r.Success? && WellFormedTable(t, encode) ==> WellFormedTable(r.value, encode)
  {
    if docs == [] then Success(t)
    else match BuildTable(t, docs[..|docs| - 1], encode)
      case Failure(e) => Failure(e)
      case Success(t') => AddFault(t', docs[|docs| - 1], encode)
  }

  /** The result for one table entry with similarity `s`, with the defaults for missing fields. */
  function ResultFor(name: string, e: TableEntry, s: real): Match
    requires e.fault.fault.Entry?
  {
    Match(name, s, e.fault.fault.body.causes.GetOr([]), "neural_engine",
          Some(e.fault.sourceFile.GetOr("unknown")), Some(e.fault.faultNumber.GetOr(0)))
  }

  /** The results for the keys `ks`, in key order, of the entries above the threshold. */
  function Candidates(t: Table, encode: string -> Embedding, similarity: (Embedding, Embedding) -> real,
                      qe: Embedding, ks: seq<string>): seq<Match>
    requires WellFormedTable(t, encode)
    requires forall k | k in ks :: k in t.values
  {
    if ks == [] then []
    else
      var k := ks[|ks| - 1];
      var s := similarity(qe, t.values[k].embedding);
      Candidates(t, encode, similarity, qe, ks[..|ks| - 1]) + (if s > Threshold then [ResultFor(k, t.values[k], s)] else [])
  }

  /** What `process` returns for a query with embedding `qe`. */
  function Rank(t: Table, encode: string -> Embedding, similarity: (Embedding, Embedding) -> real, qe: Embedding): seq<Match>
    requires t.Valid() && WellFormedTable(t, encode)
  {
    SortDesc(Candidates(t, encode, similarity, qe, t.keys), Confidence)
  }

  class Engine {
    const encode: string -> Embedding
    const similarity: (Embedding, Embedding) -> real
    var faultEmbeddings: Table

    predicate Valid()
      reads this
    {
      faultEmbeddings.Valid() && WellFormedTable(faultEmbeddings, encode)
    }

    constructor(encode: string -> Embedding, similarity: (Embedding, Embedding) -> real)
      ensures Valid()
      ensures this.encode == encode && this.similarity == similarity
      ensures faultEmbeddings == Empty()
    {
      this.encode := encode;
      this.similarity := similarity;
      faultEmbeddings := Empty();
    }

    /**
     * `_precompute_embeddings`: stores each record under its name. On an
     * exception the table holds what was stored before the failing record.
     */
    method PrecomputeEmbeddings(allFaults: seq<FaultDoc>) returns (error: Option<NeuralError>)
      requires Valid()
      modifies this
      ensures Valid()
      ensures BuildTable(old(faultEmbeddings), allFaults, encode).Success? ==>
        error.None? && faultEmbeddings == BuildTable(old(faultEmbeddings), allFaults, encode).value
      ensures BuildTable(old(faultEmbeddings), allFaults, encode).Failure? ==>
        && error == Some(BuildTable(old(faultEmbeddings), allFaults, encode).error)
        && exists n :: 0 <= n < |allFaults|
             && BuildTable(old(faultEmbeddings), allFaults[..n], encode) == Success(faultEmbeddings)
             && AddFault(faultEmbeddings, allFaults[n], encode).Failure?
    {
      ghost var start := faultEmbeddings;
      var i := 0;
      while i < |allFaults|
        invariant 0 <= i <= |allFaults|
        invariant Valid()
        invariant BuildTable(start, allFaults[..i], encode) == Success(faultEmbeddings)
      {
        BuildTableNext(start, allFaults, i, encode);
        var d := allFaults[i];
        if d.fault.Missing? {
          i := i + 1;
          continue;
        }
        if d.fault.NotMapping? {
          BuildTableFailurePersists(start, allFaults, i + 1, encode);
          return Some(TypeError);
        }
        if d.fault.body.name.None? {
          BuildTableFailurePersists(start, allFaults, i + 1, encode);
          return Some(KeyError("name"));
        }
        var name := d.fault.body.name.value;
        var text := TextOf(name, d.fault.body.symptoms.GetOr([]));
        var embedding := encode(text);
        faultEmbeddings := faultEmbeddings.Put(name, TableEntry(embedding, d));
        i := i + 1;
      }
      assert allFaults[..i] == allFaults;
      error := None;
    }

    /** The text `_precompute_embeddings` embeds for a record, accumulated with `+=`. */
    static method TextOf(name: string, symptoms: seq<string>) returns (text: string)
      ensures text == EmbeddingText(name, symptoms)
    {
      text := name + " ";
      var j := 0;
      while j < |symptoms|
        invariant 0 <= j <= |symptoms|
        invariant text == Suffixed([name] + symptoms[..j])
      {
        assert ([name] + symptoms[..j + 1])[..j + 1] == [name] + symptoms[..j];
        text := text + symptoms[j] + " ";
        j := j + 1;
      }
      assert symptoms[..j] == symptoms;
    }

    /** `process`: the entries whose similarity to the query exceeds the threshold, ranked. */
    method Process(query: string) returns (results: seq<Match>)
      requires Valid()
      ensures results == Rank(faultEmbeddings, encode, similarity, encode(query))
    {
      var queryEmbedding := encode(query);
      var keys := faultEmbeddings.keys;
      results := [];
      var i := 0;
      while i < |keys|
        invariant 0 <= i <= |keys|
        invariant results == Candidates(faultEmbeddings, encode, similarity, queryEmbedding, keys[..i])
      {
        CandidatesNext(faultEmbeddings, encode, similarity, queryEmbedding, keys, i);
        var name := keys[i];
        var data := faultEmbeddings.values[name];
        var s := similarity(queryEmbedding, data.embedding);
        if s > Threshold {
          results := results + [ResultFor(name, data, s)];
        }
        i := i + 1;
      }
      assert keys[..i] == keys;
      results := SortDesc(results, Confidence);
    }
  }

  lemma BuildTableNext(t: Table, docs: seq<FaultDoc>, i: nat, encode: string -> Embedding)
    requires t.Valid() && i < |docs| && BuildTable(t, docs[..i], encode).Success?
    ensures BuildTable(t, docs[..i + 1], encode) == AddFault(BuildTable(t, docs[..i], encode).value, docs[i], encode)
  {
    assert docs[..i + 1][..i] == docs[..i];
  }

  /** The candidates of one more key: those of the keys before it, then its own result if it is above the threshold. */
  lemma CandidatesNext(t: Table, encode: string -> Embedding, similarity: (Embedding, Embedding) -> real,
                       qe: Embedding, ks: seq<string>, i: nat)
    requires t.Valid() && WellFormedTable(t, encode) && ks == t.keys && i < |ks|
    ensures Candidates(t, encode, similarity, qe, ks[..i + 1]) ==
      Candidates(t, encode, similarity, qe, ks[..i]) +
      (if similarity(qe, t.values[ks[i]].embedding) > Threshold
       then [ResultFor(ks[i], t.values[ks[i]], similarity(qe, t.values[ks[i]].embedding))] else [])
  {
    assert ks[..i + 1][..i] == ks[..i];
  }

  /** Once a prefix of the corpus fails, building the table fails with the same exception. */
  lemma {:induction false} BuildTableFailurePersists(t: Table, docs: seq<FaultDoc>, n: nat, encode: string -> Embedding)
    requires t.Valid() && n <= |docs| && BuildTable(t, docs[..n], encode).Failure?
    ensures BuildTable(t, docs, encode) == BuildTable(t, docs[..n], encode)
    decreases |docs| - n
  {
    if n < |docs| {
      assert docs[..n + 1][..n] == docs[..n];
      BuildTableFailurePersists(t, docs, n + 1, encode);
    } else {
      assert docs[..n] == docs;
    }
  }

  lemma {:induction false} JoinAppend(items: seq<string>, x: string, sep: string)
    requires items != []
    ensures Join(items + [x], sep) == Join(items, sep) + sep + x
  {
    if |items| == 1 {
      assert (items + [x])[1..] == [x];
    } else {
      assert (items + [x])[1..] == items[1..] + [x];
      JoinAppend(items[1..], x, sep);
    }
  }

  /** The embedded text is the items joined by single spaces, with one trailing space. */
  lemma {:induction false} SuffixedIsJoin(items: seq<string>)
    requires items != []
    ensures Suffixed(items) == Join(items, " ") + " "
  {
    var init := items[..|items| - 1];
    if init == [] {
      assert items == [items[0]];
    } else {
      SuffixedIsJoin(init);
      JoinAppend(init, items[|items| - 1], " ");
      assert init + [items[|items| - 1]] == items;
    }
  }

  /** A record carries a name under a mapping `fault`. */
  predicate Named(d: FaultDoc, k: string) {
    d.fault.Entry? && d.fault.body.name == Some(k)
  }

  /**
   * Building the table fails exactly when some record's `fault` is not a
   * mapping or lacks `name`; records without `fault` are skipped.
   */
  lemma {:induction false} BuildTableFails(t: Table, docs: seq<FaultDoc>, encode: string -> Embedding)
    requires t.Valid()
    ensures BuildTable(t, docs, encode).Failure? <==>
      exists i :: 0 <= i < |docs| && (docs[i].fault.NotMapping? || (docs[i].fault.Entry? && docs[i].fault.body.name.None?))
  {
    if docs != [] {
      var init := docs[..|docs| - 1];
      BuildTableFails(t, init, encode);
      assert forall i :: 0 <= i < |init| ==> docs[i] == init[i];
    }
  }

  /** A successful build of a non-empty corpus is the build of all but the last record, then that record added. */
  lemma BuildTableLast(t: Table, docs: seq<FaultDoc>, encode: string -> Embedding)
    requires t.Valid() && docs != [] && BuildTable(t, docs, encode).Success?
    ensures BuildTable(t, docs[..|docs| - 1], encode).Success?
    ensures BuildTable(t, docs, encode) == AddFault(BuildTable(t, docs[..|docs| - 1], encode).value, docs[|docs| - 1], encode)
  {
  }

  /** Adding one record makes its name a key and keeps every other key. */
  lemma AddFaultKeys(t: Table, d: FaultDoc, encode: string -> Embedding, k: string)
    requires t.Valid() && AddFault(t, d, encode).Success?
    ensures k in AddFault(t, d, encode).value.values <==> k in t.values || Named(d, k)
  {
  }

  /** Some record of a non-empty corpus carries `k` exactly when some earlier one or the last one does. */
  lemma NamedSplit(docs: seq<FaultDoc>, init: seq<FaultDoc>, k: string)
    requires docs != [] && init == docs[..|docs| - 1]
    ensures (exists i :: 0 <= i < |docs| && Named(docs[i], k)) <==>
      (exists i :: 0 <= i < |init| && Named(init[i], k)) || Named(docs[|docs| - 1], k)
  {
    if exists i :: 0 <= i < |docs| && Named(docs[i], k) {
      var i :| 0 <= i < |docs| && Named(docs[i], k);
      if i < |init| {
        assert Named(init[i], k);
      }
    }
    if exists i :: 0 <= i < |init| && Named(init[i], k) {
      var i :| 0 <= i < |init| && Named(init[i], k);
      assert Named(docs[i], k);
    }
  }

  /** After a successful build, a name is a key exactly when it was one before or some record carries it. */
  lemma {:induction false} BuildTableKeys(t: Table, docs: seq<FaultDoc>, encode: string -> Embedding, k: string)
    requires t.Valid() && BuildTable(t, docs, encode).Success?
    ensures k in BuildTable(t, docs, encode).value.values <==>
      k in t.values || exists i :: 0 <= i < |docs| && Named(docs[i], k)
  {
    if docs != [] {
      var init := docs[..|docs| - 1];
      BuildTableLast(t, docs, encode);
      BuildTableKeys(t, init, encode, k);
      AddFaultKeys(BuildTable(t, init, encode).value, docs[|docs| - 1], encode, k);
      NamedSplit(docs, init, k);
    }
  }

  /**
   * After a successful build, the entry of a name holds the LAST record
   * carrying it: a later record with the same name replaces an earlier one.
   */
  lemma {:induction false} BuildTableLastWins(t: Table, docs: seq<FaultDoc>, encode: string -> Embedding, k: string, i: nat)
    requires t.Valid() && BuildTable(t, docs, encode).Success?
    requires i < |docs| && Named(docs[i], k)
    requires forall j :: i < j < |docs| ==> !Named(docs[j], k)
    ensures k in BuildTable(t, docs, encode).value.values
    ensures BuildTable(t, docs, encode).value.values[k].fault == docs[i]
  {
    var init := docs[..|docs| - 1];
    if i < |init| {
      assert !Named(docs[|docs| - 1], k);
      assert forall j :: i < j < |init| ==> init[j] == docs[j];
      BuildTableLastWins(t, init, encode, k, i);
    }
  }

  /** A name no record carries keeps the entry it had before the build. */
  lemma {:induction false} BuildTableUntouched(t: Table, docs: seq<FaultDoc>, encode: string -> Embedding, k: string)
    requires t.Valid() && BuildTable(t, docs, encode).Success?
    requires k in t.values && forall i :: 0 <= i < |docs| ==> !Named(docs[i], k)
    ensures k in BuildTable(t, docs, encode).value.values
    ensures BuildTable(t, docs, encode).value.values[k] == t.values[k]
  {
    if docs != [] {
      var init := docs[..|docs| - 1];
      assert forall i :: 0 <= i < |init| ==> init[i] == docs[i];
      BuildTableUntouched(t, init, encode, k);
      assert !Named(docs[|docs| - 1], k);
    }
  }

  /** Every candidate comes from one of the keys, above the threshold, with the defaults filled in. */
  lemma {:induction false} CandidatesSound(t: Table, encode: string -> Embedding, similarity: (Embedding, Embedding) -> real,
                                            qe: Embedding, ks: seq<string>)
    requires WellFormedTable(t, encode) && forall k | k in ks :: k in t.values
    ensures forall m | m in Candidates(t, encode, similarity, qe, ks) ::
      && m.fault in ks
      && m.confidence == similarity(qe, t.values[m.fault].embedding) > Threshold
      && m == ResultFor(m.fault, t.values[m.fault], m.confidence)
  {
    if ks != [] {
      var init := ks[..|ks| - 1];
      assert forall x | x in init :: x in ks;
      CandidatesSound(t, encode, similarity, qe, init);
    }
  }

  /** Every key above the threshold has a candidate. */
  lemma {:induction false} CandidatesComplete(t: Table, encode: string -> Embedding, similarity: (Embedding, Embedding) -> real,
                                               qe: Embedding, ks: seq<string>, k: string)
    requires WellFormedTable(t, encode) && forall x | x in ks :: x in t.values
    requires k in ks && similarity(qe, t.values[k].embedding) > Threshold
    ensures ResultFor(k, t.values[k], similarity(qe, t.values[k].embedding)) in Candidates(t, encode, similarity, qe, ks)
  {
    var init := ks[..|ks| - 1];
    assert forall x | x in init :: x in ks;
    if k != ks[|ks| - 1] {
      assert k in init;
      CandidatesComplete(t, encode, similarity, qe, init, k);
    }
  }

  /** Distinct keys give candidates with distinct names. */
  lemma {:induction false} CandidatesDistinct(t: Table, encode: string -> Embedding, similarity: (Embedding, Embedding) -> real,
                                               qe: Embedding, ks: seq<string>)
    requires WellFormedTable(t, encode) && forall k | k in ks :: k in t.values
    requires forall i, j :: 0 <= i < j < |ks| ==> ks[i] != ks[j]
    ensures DistinctBy(Candidates(t, encode, similarity, qe, ks), (m: Match) => m.fault)
  {
    if ks != [] {
      var init, k := ks[..|ks| - 1], ks[|ks| - 1];
      assert forall x | x in init :: x in ks;
      CandidatesDistinct(t, encode, similarity, qe, init);
      CandidatesSound(t, encode, similarity, qe, init);
      assert k !in init;
    }
  }

  /** `process` returns its results sorted by non-increasing similarity, one per name at most. */
  lemma RankSortedDistinct(t: Table, encode: string -> Embedding, similarity: (Embedding, Embedding) -> real, qe: Embedding)
    requires t.Valid() && WellFormedTable(t, encode)
    ensures SortedDesc(Rank(t, encode, similarity, qe), Confidence)
    ensures DistinctBy(Rank(t, encode, similarity, qe), (m: Match) => m.fault)
  {
    var c := Candidates(t, encode, similarity, qe, t.keys);
    SortDescCorrect(c, Confidence);
    CandidatesDistinct(t, encode, similarity, qe, t.keys);
    SortDescDistinct(c, Confidence, (m: Match) => m.fault);
  }

  /**
   * `process` returns exactly the table entries whose similarity is
   * strictly above 0.3: the key as the fault name, the similarity as the
   * confidence, and `causes`, `_source_file` and `_fault_number` with their
   * defaults `[]`, "unknown" and 0.
   */
  lemma RankResults(t: Table, encode: string -> Embedding, similarity: (Embedding, Embedding) -> real, qe: Embedding)
    requires t.Valid() && WellFormedTable(t, encode)
    ensures forall m | m in Rank(t, encode, similarity, qe) ::
      && m.fault in t.values
      && m.confidence == similarity(qe, t.values[m.fault].embedding) > Threshold
      && m.causes == t.values[m.fault].fault.fault.body.causes.GetOr([])
      && m.source == "neural_engine"
      && m.sourceFile == Some(t.values[m.fault].fault.sourceFile.GetOr("unknown"))
      && m.faultNumber == Some(t.values[m.fault].fault.faultNumber.GetOr(0))
    ensures forall k | k in t.values && similarity(qe, t.values[k].embedding) > Threshold ::
      ResultFor(k, t.values[k], similarity(qe, t.values[k].embedding)) in Rank(t, encode, similarity, qe)
  {
    var c := Candidates(t, encode, similarity, qe, t.keys);
    CandidatesSound(t, encode, similarity, qe, t.keys);
    SortDescMembers(c, Confidence);
    forall k | k in t.values && similarity(qe, t.values[k].embedding) > Threshold
      ensures ResultFor(k, t.values[k], similarity(qe, t.values[k].embedding)) in Rank(t, encode, similarity, qe)
    {
      CandidatesComplete(t, encode, similarity, qe, t.keys, k);
    }
  }
}
