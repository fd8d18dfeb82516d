/** The chunked bulk upsert of the search writers, whose backend accepts or refuses each document by itself. */
module SearchBulk {
  import opened Json
  import opened SkillMarkdown
  import opened Wrappers

  type Index = map<string, Dict>

  /** `str(value)`, given by the caller. */
  type Str = Json -> string

  /** What a partial update makes of a stored document, given by the caller. */
  type Merge = (Dict, Dict) -> Dict

  /** The first of the three ids that is not falsy, stripped; the later ones do not stand in for a blank one. */
  function DocId(str: Str, doc: Dict): string {
    var a, b, c := GetOr(doc, "_id", JNull), GetOr(doc, "doc_id", JNull), GetOr(doc, "chunk_id", JNull);
    Strip(str(if Truthy(a) then a else if Truthy(b) then b else if Truthy(c) then c else JStr("")))
  }

  /** One document sent by itself: an update of what is there, or an insertion. */
  function Upsert(str: Str, merge: Merge, t: Index, doc: Dict): Index {
    var id, payload := DocId(str, doc), doc - {"_id"};
    t[id := if id in t then merge(t[id], payload) else payload]
  }

  /** The id is the stripped text of the first of the three keys that is not falsy. */
  lemma DocIdIs(str: Str, doc: Dict)
    ensures "_id" in doc && Truthy(doc["_id"]) ==> DocId(str, doc) == Strip(str(doc["_id"]))
    ensures var own := "_id" in doc && Truthy(doc["_id"]);
            && (!own && "doc_id" in doc && Truthy(doc["doc_id"]) ==> DocId(str, doc) == Strip(str(doc["doc_id"])))
            && (!own && !("doc_id" in doc && Truthy(doc["doc_id"])) && "chunk_id" in doc && Truthy(doc["chunk_id"]) ==>
                  DocId(str, doc) == Strip(str(doc["chunk_id"])))
    ensures (forall k | k in {"_id", "doc_id", "chunk_id"} && k in doc :: !Truthy(doc[k])) ==> DocId(str, doc) == Strip(str(JStr("")))
  {
  }

  /** A document goes under its id, without its "_id": merged into the stored one, or as it is. */
  lemma OneDocument(str: Str, merge: Merge, t: Index, doc: Dict)
    ensures var id, t' := DocId(str, doc), Upsert(str, merge, t, doc);
            && t'.Keys == t.Keys + {id} && (forall other <- t :: other != id ==> t'[other] == t[other])
            && t'[id] == if id in t then merge(t[id], doc - {"_id"}) else doc - {"_id"}
  {
    hide DocId;
  }

  /** A document that is sent and taken last, or after which no taken one has its id, is stored as it was upserted. */
  lemma {:induction false} LastTaken(str: Str, merge: Merge, t: Index, docs: seq<Dict>, accepts: nat -> bool, until: nat, n: nat)
    requires n < until <= |docs| && Taken(str, docs, accepts, n)
    requires forall m | n < m < until && Taken(str, docs, accepts, m) :: DocId(str, docs[m]) != DocId(str, docs[n])
    ensures var before, after, id := After(str, merge, t, docs, accepts, 0, n), After(str, merge, t, docs, accepts, 0, until), DocId(str, docs[n]);
            id in after && after[id] == if id in before then merge(before[id], docs[n] - {"_id"}) else docs[n] - {"_id"}
    decreases until
  {
    hide DocId, Upsert;
    if until - 1 == n {
      OneDocument(str, merge, After(str, merge, t, docs, accepts, 0, n), docs[n]);
    } else {
      LastTaken(str, merge, t, docs, accepts, until - 1, n);
      OneDocument(str, merge, After(str, merge, t, docs, accepts, 0, until - 1), docs[until - 1]);
    }
  }

  /**
   What the backend does: `accepts(n)` is whether it takes document `n`; `breaks(n)` is Some when the
   connection fails during chunk `n`, after that many of its requests have reached the index.
   */
  datatype Backend = Backend(accepts: nat -> bool, breaks: nat -> Option<nat>)

  predicate Taken(str: Str, docs: seq<Dict>, accepts: nat -> bool, n: nat)
    requires n < |docs|
  {
    DocId(str, docs[n]) != "" && accepts(n)
  }

  /** The documents from `from` up to `to`, sent one at a time. */
  ghost function After(str: Str, merge: Merge, t: Index, docs: seq<Dict>, accepts: nat -> bool, from: nat, until: nat): Index
    requires from <= until <= |docs|
    decreases until
  {
    if from == until then t
    else
      var before := After(str, merge, t, docs, accepts, from, until - 1);
      if Taken(str, docs, accepts, until - 1) then Upsert(str, merge, before, docs[until - 1]) else before
  }

  ghost function TakenCount(str: Str, docs: seq<Dict>, accepts: nat -> bool, from: nat, until: nat): nat
    requires from <= until <= |docs|
    decreases until
  {
    if from == until then 0
    else TakenCount(str, docs, accepts, from, until - 1) + (if Taken(str, docs, accepts, until - 1) then 1 else 0)
  }

  lemma {:induction false} AfterPieces(str: Str, merge: Merge, t: Index, docs: seq<Dict>, accepts: nat -> bool, a: nat, b: nat, c: nat)
    requires a <= b <= c <= |docs|
    ensures After(str, merge, After(str, merge, t, docs, accepts, a, b), docs, accepts, b, c) == After(str, merge, t, docs, accepts, a, c)
    ensures TakenCount(str, docs, accepts, a, b) + TakenCount(str, docs, accepts, b, c) == TakenCount(str, docs, accepts, a, c)
    decreases c
  {
    if b < c { AfterPieces(str, merge, t, docs, accepts, a, b, c - 1); }
  }

  lemma NothingSent(str: Str, merge: Merge, t: Index, docs: seq<Dict>, accepts: nat -> bool)
    ensures After(str, merge, t, docs, accepts, 0, 0) == t && TakenCount(str, docs, accepts, 0, 0) == 0
    ensures AfterActions(str, merge, t, docs, accepts, []) == t && Accepted(accepts, []) == 0
  {
  }

  // ---------------------------------------------------------------- one chunk

  /** The positions of the documents a request is made for. */
  ghost function Actions(str: Str, docs: seq<Dict>, from: nat, until: nat): (r: seq<nat>)
    requires from <= until <= |docs|
    ensures forall k | 0 <= k < |r| :: from <= r[k] < until
    decreases until
  {
    if from == until then []
    else Actions(str, docs, from, until - 1) + (if DocId(str, docs[until - 1]) != "" then [until - 1] else [])
  }

  ghost function AfterActions(str: Str, merge: Merge, t: Index, docs: seq<Dict>, accepts: nat -> bool, actions: seq<nat>): Index
    requires forall k | 0 <= k < |actions| :: actions[k] < |docs|
  {
    if actions == [] then t
    else
      var last := actions[|actions| - 1];
      var before := AfterActions(str, merge, t, docs, accepts, actions[..|actions| - 1]);
      if accepts(last) then Upsert(str, merge, before, docs[last]) else before
  }

  ghost function Accepted(accepts: nat -> bool, actions: seq<nat>): nat {
    if actions == [] then 0
    else Accepted(accepts, actions[..|actions| - 1]) + (if accepts(actions[|actions| - 1]) then 1 else 0)
  }

  /** Documents without an id are not sent, and nothing else is lost. */
  lemma {:induction false} ActionsAreTheChunk(str: Str, merge: Merge, t: Index, docs: seq<Dict>, accepts: nat -> bool, from: nat, until: nat)
    requires from <= until <= |docs|
    ensures var actions := Actions(str, docs, from, until);
            && AfterActions(str, merge, t, docs, accepts, actions) == After(str, merge, t, docs, accepts, from, until)
            && Accepted(accepts, actions) == TakenCount(str, docs, accepts, from, until)
    decreases until
  {
    hide DocId, Upsert;
    if from != until {
      var last := until - 1;
      ActionsAreTheChunk(str, merge, t, docs, accepts, from, last);
      var before, actions := Actions(str, docs, from, last), Actions(str, docs, from, until);
      if DocId(str, docs[last]) != "" {
        assert actions == before + [last];
        OneMore(str, merge, t, docs, accepts, before, last);
      } else {
        assert actions == before;
      }
    }
  }

  lemma OneMore(str: Str, merge: Merge, t: Index, docs: seq<Dict>, accepts: nat -> bool, actions: seq<nat>, last: nat)
    requires last < |docs| && forall k | 0 <= k < |actions| :: actions[k] < |docs|
    ensures var before := AfterActions(str, merge, t, docs, accepts, actions);
            AfterActions(str, merge, t, docs, accepts, actions + [last])
            == (if accepts(last) then Upsert(str, merge, before, docs[last]) else before)
    ensures Accepted(accepts, actions + [last]) == Accepted(accepts, actions) + (if accepts(last) then 1 else 0)
  {
    hide Upsert;
    assert (actions + [last])[..|actions|] == actions;
  }

  /** Where the chunk has got to when `k` of its requests have been made. */
  ghost function StopAfter(actions: seq<nat>, k: nat, until: nat): nat {
    if k < |actions| then actions[k] else until
  }

  lemma ActionsStep(str: Str, docs: seq<Dict>, from: nat, until: nat)
    requires from < until <= |docs|
    ensures Actions(str, docs, from, until)
         == Actions(str, docs, from, until - 1) + (if DocId(str, docs[until - 1]) != "" then [until - 1] else [])
  {
  }

  lemma PrefixAppend(a: seq<nat>, x: nat, k: nat)
    requires k <= |a|
    ensures (a + [x])[..k] == a[..k] && (k < |a| ==> (a + [x])[k] == a[k]) && (a + [x])[|a|] == x
  {
  }

  /** A part of a chunk's requests is all the requests of a shorter chunk. */
  lemma {:induction false} PartOfChunk(str: Str, docs: seq<Dict>, from: nat, until: nat, k: nat)
    requires from <= until <= |docs|
    ensures var actions := Actions(str, docs, from, until);
            var stop, done := StopAfter(actions, k, until), if k < |actions| then actions[..k] else actions;
            && from <= stop <= until && Actions(str, docs, from, stop) == done
    decreases until
  {
    hide DocId, Actions;
    var actions := Actions(str, docs, from, until);
    if from < until && k < |actions| {
      PartOfChunk(str, docs, from, until - 1, k);
      ActionsStep(str, docs, from, until);
      var before := Actions(str, docs, from, until - 1);
      if k < |before| {
        if actions != before { PrefixAppend(before, until - 1, k); }
      } else {
        PrefixAppend(before, until - 1, k);
        assert k == |before| && before[..k] == before;
      }
    } else if from == until {
      NoActions(str, docs, from);
    }
  }

  lemma NoActions(str: Str, docs: seq<Dict>, from: nat)
    requires from <= |docs|
    ensures Actions(str, docs, from, from) == []
  {
  }

  function ChunkEnd(start: nat, size: nat, length: nat): nat {
    if start + size < length then start + size else length
  }

  /** How many documents chunks before `batch` hold. */
  ghost function StartOf(size: nat, length: nat, batch: nat): nat {
    if batch == 0 then 0 else ChunkEnd(StartOf(size, length, batch - 1), size, length)
  }

  datatype Counts = Counts(success: nat, fail: nat)

  class SearchWriter {
    var docs: Index
    const chunkSize: nat

    constructor (chunkSize: nat)
      requires chunkSize > 0
      ensures this.chunkSize == chunkSize && docs == map[]
    {
      this.chunkSize := chunkSize;
      docs := map[];
    }

    method BuildActions(str: Str, all: seq<Dict>, start: nat, end: nat) returns (actions: seq<nat>, missing: nat)
      requires start <= end <= |all|
      ensures actions == Actions(str, all, start, end) && |actions| + missing == end - start
    {
      hide Actions, DocId;
      NoActions(str, all, start);
      actions, missing := [], 0;
      for n := start to end
        invariant actions == Actions(str, all, start, n) && |actions| + missing == n - start
      {
        ActionsStep(str, all, start, n + 1);
        if DocId(str, all[n]) == "" {
          missing := missing + 1;
          continue;
        }
        actions := actions + [n];
      }
    }

    /** One request; each action succeeds or is reported by itself. */
    method Send(str: Str, merge: Merge, all: seq<Dict>, accepts: nat -> bool, actions: seq<nat>) returns (success: nat, errors: nat)
      requires forall k | 0 <= k < |actions| :: actions[k] < |all|
      modifies this
      ensures docs == AfterActions(str, merge, old(docs), all, accepts, actions)
      ensures success == Accepted(accepts, actions) && success + errors == |actions|
    {
      success, errors := 0, 0;
      for k := 0 to |actions|
        invariant docs == AfterActions(str, merge, old(docs), all, accepts, actions[..k])
        invariant success == Accepted(accepts, actions[..k]) && success + errors == k
      {
        assert actions[..k + 1][..k] == actions[..k];
        if accepts(actions[k]) {
          docs := Upsert(str, merge, docs, all[actions[k]]);
          success := success + 1;
        } else {
          errors := errors + 1;
        }
      }
      assert actions[..|actions|] == actions;
    }

    /**
     `_bulk`: whatever the chunk size, a normal return leaves the index as if the documents had been
     sent one at a time, and every document is counted once. A transport error in a chunk with
     something to send raises, and what reached the index before it stays.
     */
    method Bulk(str: Str, merge: Merge, index: string, all: seq<Dict>, b: Backend)
      returns (r: Result<Counts, string>, ghost failed: nat, ghost stop: nat)
      requires chunkSize > 0
      modifies this
      ensures index == "" ==> r == Failure("DATABASE_INVALID_ARGUMENT") && docs == old(docs)
      ensures index != "" && r.Failure? ==> r.error == "DATABASE_BACKEND_UNAVAILABLE"
      ensures index != "" && r.Success? ==>
                && docs == After(str, merge, old(docs), all, b.accepts, 0, |all|)
                && r.value.success == TakenCount(str, all, b.accepts, 0, |all|)
                && r.value.success + r.value.fail == |all|
      ensures index != "" && r.Failure? ==>
                var start := StartOf(chunkSize, |all|, failed);
                var end := ChunkEnd(start, chunkSize, |all|);
                && start < |all| && b.breaks(failed).Some? && Actions(str, all, start, end) != []
                && stop == StopAfter(Actions(str, all, start, end), b.breaks(failed).value, end)
                && start <= stop <= end
                && docs == After(str, merge, old(docs), all, b.accepts, 0, stop)
    {
      hide *;
      NothingSent(str, merge, docs, all, b.accepts);
      failed, stop := 0, 0;
      if index == "" {
        return Failure("DATABASE_INVALID_ARGUMENT"), 0, 0;
      }
      var success: nat, fail: nat := 0, 0;
      var start, batch: nat := 0, 0;
      ChunksStart(chunkSize, |all|);
      while start < |all|
        invariant start <= |all| && start == StartOf(chunkSize, |all|, batch)
        invariant docs == After(str, merge, old(docs), all, b.accepts, 0, start)
        invariant success == TakenCount(str, all, b.accepts, 0, start) && success + fail == start
        decreases |all| - start
      {
        NextChunk(chunkSize, |all|, batch);
        var end := ChunkEnd(start, chunkSize, |all|);
        var actions, missing := BuildActions(str, all, start, end);
        fail := fail + missing;
        ActionsAreTheChunk(str, merge, docs, all, b.accepts, start, end);
        AfterPieces(str, merge, old(docs), all, b.accepts, 0, start, end);
        NothingSent(str, merge, docs, all, b.accepts);
        if actions != [] {
          if b.breaks(batch).Some? {
            var k := b.breaks(batch).value;
            PartOfChunk(str, all, start, end, k);
            failed, stop := batch, StopAfter(actions, k, end);
            ActionsAreTheChunk(str, merge, docs, all, b.accepts, start, stop);
            AfterPieces(str, merge, old(docs), all, b.accepts, 0, start, stop);
            var _, _ := Send(str, merge, all, b.accepts, if k < |actions| then actions[..k] else actions);
            return Failure("DATABASE_BACKEND_UNAVAILABLE"), failed, stop;
          }
          var sent, errors := Send(str, merge, all, b.accepts, actions);
          success, fail := success + sent, fail + errors;
        }
        start, batch := end, batch + 1;
      }
      return Success(Counts(success, fail)), batch, start;
    }
  }

  lemma ChunksStart(size: nat, length: nat)
    ensures StartOf(size, length, 0) == 0
  {
  }

  lemma NextChunk(size: nat, length: nat, batch: nat)
    requires size > 0 && StartOf(size, length, batch) < length
    ensures StartOf(size, length, batch + 1) == ChunkEnd(StartOf(size, length, batch), size, length)
    ensures StartOf(size, length, batch) < ChunkEnd(StartOf(size, length, batch), size, length) <= length
  {
  }
}
