/**
 * The product catalog index of knowledge_base.py: a corpus copied into three
 * parallel lists (ids, texts, metadata), and a top-k search over it that
 * returns ProductDescription records ranked by similarity score.
 *
 * The embedding model, the normalisation of vectors and the dot products are
 * not modelled: a search receives the similarity score of every stored entry
 * as the sequence `sims`.
 */
module KnowledgeBase {
  import opened Wrappers
  import opened Ranking

  /** A metadata dictionary; its values are modelled as strings. */
  type Meta = map<string, string>

  /** A search result record; `meta` and `score` are optional fields of the record type. */
  datatype ProductDescription = ProductDescription(
    id: string,
    text: string,
    meta: Option<Meta>,
    score: Option<real>)

  /** One corpus dictionary; a `None` field is a key the dictionary does not have. */
  datatype CorpusEntry = CorpusEntry(id: Option<string>, text: Option<string>, meta: Option<Meta>)

  /** What the constructor is handed: a list or tuple of entries, or anything else. */
  datatype Corpus = ListOrTuple(entries: seq<CorpusEntry>) | OtherValue

  datatype InitError = ValueError(message: string) | KeyError(key: string)

  const NotAListMessage := "corpus must be a list of dicts"

  predicate HasRequiredKeys(e: CorpusEntry) {
    e.id.Some? && e.text.Some?
  }

  /** `d.get("meta", {})`: a missing metadata dictionary reads as the empty one. */
  function MetaOrEmpty(e: CorpusEntry): Meta {
    if e.meta.Some? then e.meta.value else map[]
  }

  /**
   * The exception construction raises, if any: a ValueError for a corpus
   * that is not a list or tuple; otherwise a KeyError for "id" if some entry
   * lacks an id (the ids are collected first), else for "text" if some entry
   * lacks a text.
   */
  function CheckCorpus(corpus: Corpus): (err: Option<InitError>)
    ensures err == None <==> corpus.ListOrTuple? && forall e <- corpus.entries :: HasRequiredKeys(e)
    ensures corpus.OtherValue? <==> err == Some(ValueError(NotAListMessage))
    ensures err == Some(KeyError("id")) <==> corpus.ListOrTuple? && exists e <- corpus.entries :: e.id.None?
    ensures err == Some(KeyError("text")) <==>
              corpus.ListOrTuple? && (forall e <- corpus.entries :: e.id.Some?) &&
              exists e <- corpus.entries :: e.text.None?
  {
    if corpus.OtherValue? then Some(ValueError(NotAListMessage))
    else if exists e <- corpus.entries :: e.id.None? then Some(KeyError("id"))
    else if exists e <- corpus.entries :: e.text.None? then Some(KeyError("text"))
    else None
  }

  /**
   * The clamp and selection of `search`: `k = min(topK, n)`; all entries
   * sorted when `k == n`, else the `k` best picked and then sorted.
   */
  method RankIndices(sims: seq<real>, topK: nat) returns (order: seq<nat>)
    ensures |order| == (if topK < |sims| then topK else |sims|)
    ensures IsTopKRanking(sims, |order|, order)
    ensures topK >= |sims| ==> IsPermutation(order, |sims|)
  {
    var n := |sims|;
    var k := if topK < n then topK else n;
    if k == n {
      order := ArgSort(sims);
    } else {
      var idxPart := ArgPartition(sims, k);
      order := SortByScore(sims, idxPart);
      SortedSelectionIsRanking(sims, k, idxPart, order);
    }
  }

  class VectorDatabase {
    const ids: seq<string>
    const texts: seq<string>
    const metas: seq<Meta>

    /** The three lists are parallel: position i describes the same entry in each. */
    ghost predicate Valid() {
      |texts| == |ids| && |metas| == |ids|
    }

    /** Copies a well-formed corpus into the parallel lists, in corpus order. */
    constructor (entries: seq<CorpusEntry>)
      requires forall i :: 0 <= i < |entries| ==> entries[i].id.Some? && entries[i].text.Some?
      ensures Valid() && |ids| == |entries|
      ensures forall i :: 0 <= i < |entries| ==>
                ids[i] == entries[i].id.value && texts[i] == entries[i].text.value &&
                metas[i] == MetaOrEmpty(entries[i])
    {
      ids := seq(|entries|, i requires 0 <= i < |entries| => entries[i].id.value);
      texts := seq(|entries|, i requires 0 <= i < |entries| => entries[i].text.value);
      metas := seq(|entries|, i requires 0 <= i < |entries| => MetaOrEmpty(entries[i]));
    }

    /** The result record for stored entry `i` with score `sims[i]`. */
    function Describe(sims: seq<real>, i: nat): ProductDescription
      requires Valid() && |sims| == |ids| && i < |ids|
    {
      ProductDescription(ids[i], texts[i], Some(metas[i]), Some(sims[i]))
    }

    /**
     * The `min(topK, n)` best entries by score, highest first, as records
     * carrying the stored id, text and metadata and the entry's score.
     * `order` is the list of entry positions the records come from.
     */
    method Search(sims: seq<real>, topK: nat := 5) returns (results: seq<ProductDescription>, ghost order: seq<nat>)
      requires Valid() && |sims| == |ids|
      ensures |results| == |order| == (if topK < |ids| then topK else |ids|)
      ensures |ids| == 0 ==> results == []
      ensures IsTopKRanking(sims, |order|, order)
      ensures forall i :: 0 <= i < |results| ==>
                results[i].id == ids[order[i]] && results[i].text == texts[order[i]] &&
                results[i].meta == Some(metas[order[i]]) && results[i].score == Some(sims[order[i]])
      ensures forall i, j :: 0 <= i < j < |results| ==> results[i].score.value >= results[j].score.value
      ensures topK >= |ids| ==> IsPermutation(order, |ids|)
    {
      if |sims| == 0 {
        results, order := [], [];
        return;
      }
      var idxSorted := RankIndices(sims, topK);
      results := seq(|idxSorted|, i requires 0 <= i < |idxSorted| => Describe(sims, idxSorted[i]));
      order := idxSorted;
    }
  }

  /** `VectorDatabase(corpus)`: the index, or the exception construction raises. */
  method Build(corpus: Corpus) returns (r: Result<VectorDatabase, InitError>)
    ensures r.Failure? <==> CheckCorpus(corpus).Some?
    ensures r.Failure? ==> r.error == CheckCorpus(corpus).value
    ensures r.Success? ==> fresh(r.value) && r.value.Valid()
    ensures r.Success? ==> |r.value.ids| == |corpus.entries|
    ensures r.Success? ==> forall i :: 0 <= i < |corpus.entries| ==>
              r.value.ids[i] == corpus.entries[i].id.value &&
              r.value.texts[i] == corpus.entries[i].text.value &&
              r.value.metas[i] == MetaOrEmpty(corpus.entries[i])
  {
    var err := CheckCorpus(corpus);
    if err.Some? {
      return Failure(err.value);
    }
    var db := new VectorDatabase(corpus.entries);
    return Success(db);
  }

}
