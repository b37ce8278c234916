/** `GET /quiz/question`: one correct butterfly and up to four distractors,
    drawn from the first 100 documents of the store and shuffled together. */
module Quiz {
  import opened Wrappers
  import opened Draws
  import opened Catalog

  /** Fewer documents than this and no question is composed. */
  const MinCatalog := 5
  const DistractorCount := 4

  /** The random source of one request: the pick for `random.choice`, the picks
      for `random.sample` and the picks for `random.shuffle`. */
  datatype Picks = Picks(choice: nat, sample: seq<nat>, shuffle: seq<nat>)

  /** The response body: `{"correctAnswer": ..., "options": [...]}`. */
  datatype Question = Question(correctAnswer: Butterfly, options: seq<Butterfly>)

  /** `[b for b in docs if b["_id"] != oid]`. */
  function WithoutId(docs: seq<Doc>, oid: ObjectId): (r: seq<Doc>)
    ensures |r| <= |docs|
    ensures forall d :: d in r <==> d in docs && d.oid != oid
  {
    if |docs| == 0 then []
    else if docs[0].oid != oid then [docs[0]] + WithoutId(docs[1..], oid)
    else WithoutId(docs[1..], oid)
  }

  lemma UniqueTail(docs: seq<Doc>)
    requires |docs| > 0 && UniqueIds(docs)
    ensures UniqueIds(docs[1..])
    ensures forall d :: d in docs[1..] ==> d.oid != docs[0].oid
  {
    forall d | d in docs[1..]
      ensures d.oid != docs[0].oid
    {
      var k :| 0 <= k < |docs[1..]| && docs[1..][k] == d;
      assert docs[k + 1] == d;
    }
  }

  lemma UniqueCons(d: Doc, rest: seq<Doc>)
    requires UniqueIds(rest)
    requires forall e :: e in rest ==> e.oid != d.oid
    ensures UniqueIds([d] + rest)
  {
    var r := [d] + rest;
    forall p, q | 0 <= p < |r| && 0 <= q < |r| && p != q
      ensures r[p].oid != r[q].oid
    {
      if p > 0 && q > 0 {
        assert r[p] == rest[p - 1] && r[q] == rest[q - 1];
      } else if p == 0 {
        assert r[q] == rest[q - 1];
      } else {
        assert r[p] == rest[p - 1];
      }
    }
  }

  /** With unique ids, removing the id of a present document removes exactly that document. */
  lemma {:induction false} WithoutPresentId(docs: seq<Doc>, c: Doc)
    requires UniqueIds(docs) && c in docs
    ensures |WithoutId(docs, c.oid)| == |docs| - 1
    ensures UniqueIds(WithoutId(docs, c.oid))
  {
    UniqueTail(docs);
    if docs[0] == c {
      WithoutAbsentId(docs[1..], c.oid);
    } else {
      assert c in docs[1..];
      WithoutPresentId(docs[1..], c);
      UniqueCons(docs[0], WithoutId(docs[1..], c.oid));
    }
  }

  lemma {:induction false} WithoutAbsentId(docs: seq<Doc>, oid: ObjectId)
    requires UniqueIds(docs)
    requires forall d :: d in docs ==> d.oid != oid
    ensures WithoutId(docs, oid) == docs
  {
    if |docs| > 0 {
      UniqueTail(docs);
      WithoutAbsentId(docs[1..], oid);
      assert docs == [docs[0]] + docs[1..];
    }
  }

  lemma UniqueAtMostOnce(docs: seq<Doc>, x: Doc)
    requires UniqueIds(docs)
    ensures multiset(docs)[x] <= 1
  {
    if |docs| > 0 {
      UniqueTail(docs);
      UniqueAtMostOnce(docs[1..], x);
      assert docs == [docs[0]] + docs[1..];
      if x == docs[0] {
        assert x !in docs[1..];
      }
    }
  }

  lemma RepeatedTwice(a: seq<Doc>, i: nat, j: nat)
    requires i < j < |a| && a[i] == a[j]
    ensures multiset(a)[a[i]] >= 2
  {
    assert a == a[..j] + [a[j]] + a[j + 1..];
    assert a[i] == a[..j][i];
  }

  /** Taking documents from a catalog with unique ids without replacement keeps the ids unique. */
  lemma SubMultisetKeepsUnique(a: seq<Doc>, b: seq<Doc>)
    requires multiset(a) <= multiset(b) && UniqueIds(b)
    ensures UniqueIds(a)
  {
    forall i, j | 0 <= i < |a| && 0 <= j < |a| && i != j
      ensures a[i].oid != a[j].oid
    {
      if a[i].oid == a[j].oid {
        assert a[i] in multiset(a) && a[j] in multiset(a);
        var p := IndexOf(b, a[i]);
        var q := IndexOf(b, a[j]);
        assert p == q;
        if i < j { RepeatedTwice(a, i, j); } else { RepeatedTwice(a, j, i); }
        UniqueAtMostOnce(b, a[i]);
        assert false;
      }
    }
  }

  /** The documents one request selects. */
  datatype Selection = Selection(correct: Doc, distractors: seq<Doc>, options: seq<Doc>)

  /** Lines 68-76 of the handler on the fetched page `page`. */
  function Select(page: seq<Doc>, p: Picks): (s: Selection)
    requires |page| > 0
    ensures s.correct in page
    ensures |s.distractors| == Min(DistractorCount, |WithoutId(page, s.correct.oid)|)
    ensures multiset(s.distractors) <= multiset(WithoutId(page, s.correct.oid))
    ensures multiset(s.options) == multiset([s.correct] + s.distractors)
  {
    var correct := Choose(page, p.choice);
    var wrong := WithoutId(page, correct.oid);
    var distractors := Sample(wrong, Min(DistractorCount, |wrong|), p.sample);
    Selection(correct, distractors, Shuffle([correct] + distractors, p.shuffle))
  }

  /** Every document a selection puts among the options comes from the page. */
  lemma SelectionFromPage(page: seq<Doc>, p: Picks)
    requires |page| > 0
    ensures forall d :: d in Select(page, p).options ==> d in page
  {
    var s := Select(page, p);
    SubMultisetMembers(s.options, [s.correct] + s.distractors);
    SubMultisetMembers(s.distractors, WithoutId(page, s.correct.oid));
  }

  /** Every option of a selection comes from the page, and only the correct one carries its id. */
  lemma SelectionShape(page: seq<Doc>, p: Picks)
    requires |page| >= MinCatalog && UniqueIds(page)
    ensures var s := Select(page, p);
      && |s.options| == 1 + DistractorCount
      && UniqueIds(s.options)
      && s.correct in s.options
      && (forall d :: d in s.options ==> d in page)
  {
    var s := Select(page, p);
    var wrong := WithoutId(page, s.correct.oid);
    WithoutPresentId(page, s.correct);
    SubMultisetKeepsUnique(s.distractors, wrong);
    SubMultisetMembers(s.distractors, wrong);
    UniqueCons(s.correct, s.distractors);
    SubMultisetKeepsUnique(s.options, [s.correct] + s.distractors);
    assert s.correct in multiset(s.options);
    SelectionFromPage(page, p);
  }

  /** `get_quiz_question` against a store and a random source. */
  function GetQuizQuestion(store: seq<Doc>, p: Picks): (r: Result<Question, ApiError>)
    ensures r.Failure? && r.error == NotEnoughButterflies <==> |store| < MinCatalog
    ensures |store| >= MinCatalog && AllWellFormed(Find(store, ListLimit)) ==> r.Success?
    ensures r.Success? ==> exists d :: d in Find(store, ListLimit) && FromDoc(d) == Some(r.value.correctAnswer)
  {
    var page := Find(store, ListLimit);
    if |page| < MinCatalog then Failure(NotEnoughButterflies)
    else
      var s := Select(page, p);
      var correct := FromDoc(s.correct);
      var options := FromDocs(s.options);
      SelectionFromPage(page, p);
      if correct.Some? && options.Some? then
        assert s.correct in page && FromDoc(s.correct) == Some(correct.value);
        Success(Question(correct.value, options.value))
      else
        assert AllWellFormed(page) ==> WellFormed(s.correct);
        assert AllWellFormed(page) ==> AllWellFormed(s.options) by {
          if AllWellFormed(page) {
            forall i | 0 <= i < |s.options|
              ensures WellFormed(s.options[i])
            {
              assert s.options[i] in page;
            }
          }
        }
        Failure(InvalidDocument)
  }

  /** The id of `b` occurs at exactly one position of `bs`. */
  ghost predicate OccursOnce(b: Butterfly, bs: seq<Butterfly>) {
    && (exists i :: 0 <= i < |bs| && bs[i].id == b.id)
    && (forall i, j :: 0 <= i < |bs| && 0 <= j < |bs| && bs[i].id == b.id && bs[j].id == b.id ==> i == j)
  }

  lemma DistinctOccursOnce(b: Butterfly, bs: seq<Butterfly>)
    requires DistinctIds(bs) && b in bs
    ensures OccursOnce(b, bs)
  {
    var k :| 0 <= k < |bs| && bs[k] == b;
  }

  /** The shape the smoke test checks: five options with pairwise distinct ids,
      among which the correct answer's id occurs exactly once. */
  lemma QuestionShape(store: seq<Doc>, p: Picks)
    requires UniqueIds(store)
    requires GetQuizQuestion(store, p).Success?
    ensures var q := GetQuizQuestion(store, p).value;
      && |q.options| == 1 + DistractorCount
      && DistinctIds(q.options)
      && q.correctAnswer in q.options
      && OccursOnce(q.correctAnswer, q.options)
  {
    var page := Find(store, ListLimit);
    assert UniqueIds(page);
    var s := Select(page, p);
    var correct := FromDoc(s.correct).value;
    var options := FromDocs(s.options).value;
    assert GetQuizQuestion(store, p).value == Question(correct, options);
    SelectionShape(page, p);
    FromDocsKeepsDistinct(s.options);
    var k := IndexOf(s.options, s.correct);
    assert FromDoc(s.options[k]) == Some(options[k]);
    assert options[k] == correct;
    DistinctOccursOnce(correct, options);
  }

  /** Every option of a question is the API form of one of the first 100 documents. */
  lemma QuestionFromFirstPage(store: seq<Doc>, p: Picks)
    requires GetQuizQuestion(store, p).Success?
    ensures var q := GetQuizQuestion(store, p).value;
      forall b :: b in q.options ==> exists d :: d in Find(store, ListLimit) && FromDoc(d) == Some(b)
  {
    var page := Find(store, ListLimit);
    assert |page| >= MinCatalog;
    var s := Select(page, p);
    var correct := FromDoc(s.correct).value;
    var options := FromDocs(s.options).value;
    assert GetQuizQuestion(store, p).value == Question(correct, options);
    SelectionFromPage(page, p);
    forall b | b in options
      ensures exists d :: d in page && FromDoc(d) == Some(b)
    {
      var k :| 0 <= k < |options| && options[k] == b;
      assert s.options[k] in page && FromDoc(s.options[k]) == Some(b);
    }
  }
}
