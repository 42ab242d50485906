/** The document collection behind each controller, as a map from
    document id to aggregate. The quiz and the poll collections are two
    instances of `Store`: their handlers for get, view, update, delete,
    impression increment and listing are the same code on different
    collections, and are modelled once here. */
module DocumentStore {
  import opened Common

  /** Document ids (Mongo ObjectIds), question sub-document ids and user ids. */
  type Id = nat
  type QId = nat
  type UserId = string

  /** A stored quiz or poll: the fields both schemas share, over the
      schema's own question type. Timestamps are not modelled. */
  datatype Aggregate<Q> = Aggregate(title: string, questions: seq<Q>, createdBy: UserId, impressions: int)

  /** A document as the listing returns it, with its id. */
  datatype Entry<Q> = Entry(id: Id, doc: Aggregate<Q>)

  /** The outcome of a handler, in place of the JSON response. */
  datatype Response<T> = Ok(value: T) | Created(id: Id, value: T) | BadRequest(error: CreateError) | NotFound {
    function StatusCode(): int {
      match this
      case Ok(_) => 200
      case Created(_, _) => 201
      case BadRequest(_) => 400
      case NotFound => 404
    }
  }

  predicate NonIncreasingImpressions<Q>(r: seq<Entry<Q>>) {
    forall i, j :: 0 <= i < j < |r| ==> r[i].doc.impressions >= r[j].doc.impressions
  }

  predicate DistinctIds<Q>(r: seq<Entry<Q>>) {
    forall i, j :: 0 <= i < j < |r| ==> r[i].id != r[j].id
  }

  predicate FreshId<Q>(r: seq<Entry<Q>>, id: Id) {
    forall i :: 0 <= i < |r| ==> r[i].id != id
  }

  /** Places `e` after every entry with at least as many impressions:
      the listing's `sort({ impressions: -1 })`, one document at a time. */
  function InsertByImpressions<Q>(r: seq<Entry<Q>>, e: Entry<Q>): seq<Entry<Q>> {
    if r == [] then [e]
    else if r[0].doc.impressions >= e.doc.impressions then [r[0]] + InsertByImpressions(r[1..], e)
    else [e] + r
  }

  /** Inserting adds exactly `e` and nothing else. */
  lemma {:induction false} InsertByImpressionsContents<Q>(r: seq<Entry<Q>>, e: Entry<Q>)
    ensures |InsertByImpressions(r, e)| == |r| + 1
    ensures e in InsertByImpressions(r, e)
    ensures forall x :: x in r ==> x in InsertByImpressions(r, e)
    ensures forall x :: x in InsertByImpressions(r, e) ==> x in r || x == e
    ensures multiset(InsertByImpressions(r, e)) == multiset(r) + multiset{e}
  {
    if r != [] && r[0].doc.impressions >= e.doc.impressions {
      InsertByImpressionsContents(r[1..], e);
      assert r == [r[0]] + r[1..];
    }
  }

  /** Inserting into a listing in non-increasing order keeps that order. */
  lemma {:induction false} InsertByImpressionsSorted<Q>(r: seq<Entry<Q>>, e: Entry<Q>)
    requires NonIncreasingImpressions(r)
    ensures NonIncreasingImpressions(InsertByImpressions(r, e))
  {
    if r != [] && r[0].doc.impressions >= e.doc.impressions {
      var rest := InsertByImpressions(r[1..], e);
      InsertByImpressionsSorted(r[1..], e);
      InsertByImpressionsContents(r[1..], e);
      var res := [r[0]] + rest;
      forall j | 0 < j < |res| ensures res[0].doc.impressions >= res[j].doc.impressions {
        assert res[j] == rest[j - 1] && rest[j - 1] in rest;
        if res[j] != e {
          var m :| 0 <= m < |r[1..]| && r[1..][m] == res[j];
          assert r[m + 1] == res[j];
        }
      }
    }
  }

  /** Inserting an entry whose id is not listed keeps the ids distinct. */
  lemma {:induction false} InsertByImpressionsDistinct<Q>(r: seq<Entry<Q>>, e: Entry<Q>)
    requires DistinctIds(r) && FreshId(r, e.id)
    ensures DistinctIds(InsertByImpressions(r, e))
  {
    if r != [] && r[0].doc.impressions >= e.doc.impressions {
      var rest := InsertByImpressions(r[1..], e);
      InsertByImpressionsDistinct(r[1..], e);
      InsertByImpressionsContents(r[1..], e);
      var res := [r[0]] + rest;
      forall j | 0 < j < |res| ensures res[0].id != res[j].id {
        assert res[j] == rest[j - 1] && rest[j - 1] in rest;
        if res[j] != e {
          var m :| 0 <= m < |r[1..]| && r[1..][m] == res[j];
          assert r[m + 1] == res[j];
        }
      }
    }
  }

  class Store<Q> {
    var docs: map<Id, Aggregate<Q>>
    /** The id generator: every id handed out so far is below it. */
    var nextId: Id

    ghost predicate Valid()
      reads this
    {
      forall id :: id in docs ==> id < nextId
    }

    constructor ()
      ensures Valid() && docs == map[]
    {
      docs := map[];
      nextId := 0;
    }

    /** `save()` of a new document: it gets a fresh id. */
    method Insert(a: Aggregate<Q>) returns (id: Id)
      requires Valid()
      modifies this
      ensures Valid()
      ensures id !in old(docs) && docs == old(docs)[id := a]
    {
      id := nextId;
      docs := docs[id := a];
      nextId := nextId + 1;
    }

    /** `save()` of a document that was loaded and changed. */
    method Save(id: Id, a: Aggregate<Q>)
      requires Valid() && id in docs
      modifies this
      ensures Valid() && nextId == old(nextId)
      ensures docs == old(docs)[id := a]
    {
      docs := docs[id := a];
    }

    /** `findById`: getQuizById and viewQuiz (and getPollById, viewPoll). */
    method Get(id: Id) returns (r: Response<Aggregate<Q>>)
      ensures id in docs ==> r == Ok(docs[id])
      ensures id !in docs ==> r == NotFound
    {
      if id in docs {
        r := Ok(docs[id]);
      } else {
        r := NotFound;
      }
    }

    /** `findByIdAndUpdate(id, { questions }, { new: true })`: updateQuiz
        and updatePoll. No validator runs on this path. */
    method ReplaceQuestions(id: Id, questions: seq<Q>) returns (r: Response<Aggregate<Q>>)
      requires Valid()
      modifies this
      ensures Valid() && nextId == old(nextId)
      ensures id in old(docs) ==>
        r == Ok(old(docs)[id].(questions := questions)) && docs == old(docs)[id := r.value]
      ensures id !in old(docs) ==> r == NotFound && docs == old(docs)
    {
      if id in docs {
        var updated := docs[id].(questions := questions);
        docs := docs[id := updated];
        r := Ok(updated);
      } else {
        r := NotFound;
      }
    }

    /** `findByIdAndDelete`: deleteQuiz and deletePoll answer with the
        removed document. */
    method Delete(id: Id) returns (r: Response<Aggregate<Q>>)
      requires Valid()
      modifies this
      ensures Valid() && nextId == old(nextId)
      ensures id in old(docs) ==> r == Ok(old(docs)[id]) && docs == old(docs) - {id}
      ensures id !in old(docs) ==> r == NotFound && docs == old(docs)
    {
      if id in docs {
        r := Ok(docs[id]);
        docs := docs - {id};
      } else {
        r := NotFound;
      }
    }

    /** `findByIdAndUpdate(id, { $inc: { impressions: 1 } }, { new: true })`. */
    method IncrementImpressions(id: Id) returns (r: Response<Aggregate<Q>>)
      requires Valid()
      modifies this
      ensures Valid() && nextId == old(nextId)
      ensures id in old(docs) ==>
        r == Ok(old(docs)[id].(impressions := old(docs)[id].impressions + 1)) && docs == old(docs)[id := r.value]
      ensures id !in old(docs) ==> r == NotFound && docs == old(docs)
    {
      if id in docs {
        var updated := docs[id].(impressions := docs[id].impressions + 1);
        docs := docs[id := updated];
        r := Ok(updated);
      } else {
        r := NotFound;
      }
    }

    /** `find({ createdBy: owner }).sort({ impressions: -1 })`: exactly the
        owner's documents, each once, in non-increasing order of
        impressions (the order among equal counts is not fixed). */
    method ListByOwner(owner: UserId) returns (r: seq<Entry<Q>>)
      ensures forall i :: 0 <= i < |r| ==>
        r[i].id in docs && r[i].doc == docs[r[i].id] && r[i].doc.createdBy == owner
      ensures forall id :: id in docs && docs[id].createdBy == owner ==> Entry(id, docs[id]) in r
      ensures DistinctIds(r)
      ensures NonIncreasingImpressions(r)
    {
      var pending := docs.Keys;
      r := [];
      while pending != {}
        invariant pending <= docs.Keys
        invariant forall i :: 0 <= i < |r| ==>
          r[i].id in docs && r[i].doc == docs[r[i].id] && r[i].doc.createdBy == owner && r[i].id !in pending
        invariant forall id :: id in docs && id !in pending && docs[id].createdBy == owner ==> Entry(id, docs[id]) in r
        invariant DistinctIds(r)
        invariant NonIncreasingImpressions(r)
        decreases pending
      {
        var id :| id in pending;
        assert FreshId(r, id);
        pending := pending - {id};
        if docs[id].createdBy == owner {
          var before := r;
          InsertByImpressionsContents(r, Entry(id, docs[id]));
          InsertByImpressionsSorted(r, Entry(id, docs[id]));
          InsertByImpressionsDistinct(r, Entry(id, docs[id]));
          r := InsertByImpressions(r, Entry(id, docs[id]));
          forall i | 0 <= i < |r|
            ensures r[i].id in docs && r[i].doc == docs[r[i].id] && r[i].doc.createdBy == owner && r[i].id !in pending
          {
            assert r[i] in r;
            if r[i] != Entry(id, docs[id]) {
              assert r[i] in before;
              var m :| 0 <= m < |before| && before[m] == r[i];
            }
          }
        }
      }
    }
  }
}
