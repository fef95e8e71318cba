/** The comment routes of server/routes/comments.js: POST / appends a comment
    whose author is the authenticated principal, GET /:documentId lists one
    document's comments oldest first. Neither route checks that the document
    exists, that the caller may see it, or that the range is ordered. */
module CommentRoutes {
  import opened Common
  import opened CommentSchema

  class CommentStore {
    /** The stored comments in insertion order. */
    var comments: seq<Comment>

    constructor ()
      ensures comments == []
    {
      comments := [];
    }

    /** POST /: the author id and name come from the principal and never from
        the body; the document id, text and range are stored as supplied.
        A missing required field fails validation on save (500). */
    method Create(caller: Principal, documentId: Option<string>, commentText: Option<string>,
                  rangeStart: Option<int>, rangeEnd: Option<int>, now: nat) returns (reply: Reply<Comment>)
      modifies this
      ensures reply.Success? <==>
        && RequiredString(documentId) && caller.id != [] && RequiredString(caller.name)
        && RequiredString(commentText) && rangeStart.Some? && rangeEnd.Some?
      ensures reply.Success? ==>
        && reply.status == 201
        && comments == old(comments) + [reply.value]
        && reply.value == Comment(documentId.value, caller.id, caller.name.value, commentText.value,
                                  rangeStart.value, rangeEnd.value, now, now)
      ensures reply.Failure? ==> reply == Failure(500, "Server Error") && comments == old(comments)
      ensures old(Chronological(comments)) && (forall c :: c in old(comments) ==> c.createdAt <= now) ==>
        Chronological(comments)
    {
      var c := Construct(documentId, caller.id, caller.name, commentText, rangeStart, rangeEnd, now);
      if c.None? {
        return Failure(500, "Server Error");
      }
      comments := comments + [c.value];
      reply := Success(201, c.value);
    }
  }

  /** The order GET /:documentId sorts by: createdAt ascending. */
  predicate Chronological(s: seq<Comment>) {
    forall i, j :: 0 <= i < j < |s| ==> s[i].createdAt <= s[j].createdAt
  }

  /** Creation order with no two comments sharing a timestamp. */
  predicate StrictlyChronological(s: seq<Comment>) {
    forall i, j :: 0 <= i < j < |s| ==> s[i].createdAt < s[j].createdAt
  }

  /** Comment.find({ documentId }): the comments of one document, in store
      order, each as often as it is stored. */
  function OfDocument(store: seq<Comment>, documentId: string): (r: seq<Comment>)
    ensures |r| <= |store|
  {
    if store == [] then []
    else
      var rest := OfDocument(store[1..], documentId);
      if store[0].documentId == documentId then [store[0]] + rest else rest
  }

  /** OfDocument keeps every comment of the document as often as it is
      stored, and nothing else. */
  lemma {:induction false} OfDocumentCounts(store: seq<Comment>, documentId: string)
    ensures forall c :: multiset(OfDocument(store, documentId))[c] ==
                        if c.documentId == documentId then multiset(store)[c] else 0
  {
    if store != [] {
      OfDocumentCounts(store[1..], documentId);
      assert store == [store[0]] + store[1..];
    }
  }

  /** Puts c after every comment not created later than it, so comments with
      equal timestamps keep their store order. */
  function InsertByCreation(s: seq<Comment>, c: Comment): (r: seq<Comment>)
    ensures |r| == |s| + 1
  {
    if s == [] || s[|s| - 1].createdAt <= c.createdAt then s + [c]
    else InsertByCreation(s[..|s| - 1], c) + [s[|s| - 1]]
  }

  /** The insertion adds c and loses nothing. */
  lemma {:induction false} InsertByCreationCounts(s: seq<Comment>, c: Comment)
    ensures multiset(InsertByCreation(s, c)) == multiset(s) + multiset{c}
  {
    if !(s == [] || s[|s| - 1].createdAt <= c.createdAt) {
      var init := s[..|s| - 1];
      InsertByCreationCounts(init, c);
      assert s == init + [s[|s| - 1]];
    }
  }

  /** The insertion keeps a list in creation order. */
  lemma {:induction false} InsertByCreationSorted(s: seq<Comment>, c: Comment)
    requires Chronological(s)
    ensures Chronological(InsertByCreation(s, c))
  {
    if s == [] || s[|s| - 1].createdAt <= c.createdAt {
      ChronologicalSnoc(s, c);
    } else {
      var init, last := s[..|s| - 1], s[|s| - 1];
      assert Chronological(init);
      InsertByCreationSorted(init, c);
      var r0 := InsertByCreation(init, c);
      InsertByCreationCounts(init, c);
      var x := r0[|r0| - 1];
      assert x in multiset(r0);
      if x != c {
        assert x in multiset(init);
        var i :| 0 <= i < |init| && init[i] == x;
        assert s[i] == x;
      }
      ChronologicalSnoc(r0, last);
    }
  }

  /** Appending an entry no earlier than the last keeps creation order. */
  lemma ChronologicalSnoc(s: seq<Comment>, c: Comment)
    requires Chronological(s) && (s == [] || s[|s| - 1].createdAt <= c.createdAt)
    ensures Chronological(s + [c])
  {
    var r := s + [c];
    forall i, j | 0 <= i < j < |r| ensures r[i].createdAt <= r[j].createdAt {
      if j == |s| && i < |s| - 1 {
        assert r[i] == s[i] && s[i].createdAt <= s[|s| - 1].createdAt;
      }
    }
  }

  /** .sort({ createdAt: 'asc' }), as a stable insertion sort. */
  function SortByCreation(s: seq<Comment>): (r: seq<Comment>)
    ensures |r| == |s|
  {
    if s == [] then [] else InsertByCreation(SortByCreation(s[..|s| - 1]), s[|s| - 1])
  }

  /** The sort yields a permutation of its input in creation order. */
  lemma {:induction false} SortByCreationCorrect(s: seq<Comment>)
    ensures Chronological(SortByCreation(s))
    ensures multiset(SortByCreation(s)) == multiset(s)
  {
    if s != [] {
      var init := s[..|s| - 1];
      SortByCreationCorrect(init);
      InsertByCreationSorted(SortByCreation(init), s[|s| - 1]);
      InsertByCreationCounts(SortByCreation(init), s[|s| - 1]);
      assert s == init + [s[|s| - 1]];
    }
  }

  /** GET /:documentId. */
  function ListByDocument(store: seq<Comment>, documentId: string): (r: seq<Comment>)
    ensures Chronological(r)
    ensures forall c :: c in r <==> c in store && c.documentId == documentId
    ensures forall c :: multiset(r)[c] == if c.documentId == documentId then multiset(store)[c] else 0
  {
    var r := SortByCreation(OfDocument(store, documentId));
    SortByCreationCorrect(OfDocument(store, documentId));
    OfDocumentCounts(store, documentId);
    assert forall c :: c in r <==> c in multiset(r);
    assert forall c :: c in store <==> c in multiset(store);
    r
  }

  /** Sorting a list already in creation order changes nothing. */
  lemma {:induction false} SortKeepsChronological(s: seq<Comment>)
    requires Chronological(s)
    ensures SortByCreation(s) == s
  {
    if s != [] {
      var init, last := s[..|s| - 1], s[|s| - 1];
      assert Chronological(init);
      SortKeepsChronological(init);
      assert init == [] || init[|init| - 1].createdAt <= last.createdAt;
      assert s == init + [last];
    }
  }

  /** Selecting one document's comments keeps creation order. */
  lemma {:induction false} OfDocumentKeepsChronological(store: seq<Comment>, documentId: string)
    requires Chronological(store)
    ensures Chronological(OfDocument(store, documentId))
  {
    if store != [] {
      assert Chronological(store[1..]);
      OfDocumentKeepsChronological(store[1..], documentId);
      var rest := OfDocument(store[1..], documentId);
      OfDocumentCounts(store[1..], documentId);
      forall c | c in rest ensures store[0].createdAt <= c.createdAt {
        assert c in multiset(rest);
        assert c in multiset(store[1..]);
        var i :| 0 <= i < |store[1..]| && store[1..][i] == c;
        assert store[i + 1] == c;
      }
    }
  }

  /** Selecting from a concatenation is the concatenation of the selections. */
  lemma {:induction false} OfDocumentAppend(a: seq<Comment>, b: seq<Comment>, documentId: string)
    ensures OfDocument(a + b, documentId) == OfDocument(a, documentId) + OfDocument(b, documentId)
  {
    if a == [] {
      assert a + b == b;
    } else {
      var ab := a + b;
      assert ab[0] == a[0] && ab[1..] == a[1..] + b;
      OfDocumentAppend(a[1..], b, documentId);
      var head := if a[0].documentId == documentId then [a[0]] else [];
      assert OfDocument(ab, documentId) == head + OfDocument(ab[1..], documentId);
      assert OfDocument(a, documentId) == head + OfDocument(a[1..], documentId);
    }
  }

  /** While timestamps grow with insertion, the list is the document's
      comments in insertion order. */
  lemma ListIsInsertionOrder(store: seq<Comment>, documentId: string)
    requires Chronological(store)
    ensures ListByDocument(store, documentId) == OfDocument(store, documentId)
  {
    OfDocumentKeepsChronological(store, documentId);
    SortKeepsChronological(OfDocument(store, documentId));
  }

  /** A comment created after all the stored ones comes back last, unchanged,
      in the list of its document; the other documents' lists are unchanged. */
  lemma ListAfterCreate(store: seq<Comment>, c: Comment, documentId: string)
    requires Chronological(store)
    requires forall x :: x in store ==> x.createdAt <= c.createdAt
    ensures ListByDocument(store + [c], documentId) ==
            ListByDocument(store, documentId) + (if c.documentId == documentId then [c] else [])
  {
    assert Chronological(store + [c]);
    ListIsInsertionOrder(store, documentId);
    ListIsInsertionOrder(store + [c], documentId);
    OfDocumentAppend(store, [c], documentId);
  }

  /** Selecting one document's comments keeps distinct timestamps in order. */
  lemma {:induction false} OfDocumentKeepsStrict(store: seq<Comment>, documentId: string)
    requires StrictlyChronological(store)
    ensures StrictlyChronological(OfDocument(store, documentId))
  {
    if store != [] {
      assert StrictlyChronological(store[1..]);
      OfDocumentKeepsStrict(store[1..], documentId);
      var rest := OfDocument(store[1..], documentId);
      OfDocumentCounts(store[1..], documentId);
      forall c | c in rest ensures store[0].createdAt < c.createdAt {
        assert c in multiset(rest);
        assert c in multiset(store[1..]);
        var i :| 0 <= i < |store[1..]| && store[1..][i] == c;
        assert store[i + 1] == c;
      }
    }
  }

  /** The latest comment of a strictly ordered list is also last in any
      ordered permutation of it. */
  lemma SameLast(a: seq<Comment>, b: seq<Comment>)
    requires StrictlyChronological(a) && Chronological(b)
    requires multiset(a) == multiset(b) && a != [] && |a| == |b|
    ensures a[|a| - 1] == b[|b| - 1]
  {
    var n := |a| - 1;
    assert b[n] in multiset(a);
    var k :| 0 <= k < |a| && a[k] == b[n];
    assert a[n] in multiset(b);
    var m :| 0 <= m < |b| && b[m] == a[n];
    assert a[n].createdAt <= b[n].createdAt;
  }

  /** Removing the same last element from two equal multisets of sequences. */
  lemma DropSameLast(a: seq<Comment>, b: seq<Comment>)
    requires multiset(a) == multiset(b) && a != [] && b != [] && a[|a| - 1] == b[|b| - 1]
    ensures multiset(a[..|a| - 1]) == multiset(b[..|b| - 1])
  {
    assert a == a[..|a| - 1] + [a[|a| - 1]];
    assert b == b[..|b| - 1] + [b[|b| - 1]];
    MultisetCancel(multiset(a[..|a| - 1]), multiset(b[..|b| - 1]), a[|a| - 1]);
  }

  lemma MultisetCancel(x: multiset<Comment>, y: multiset<Comment>, e: Comment)
    requires x + multiset{e} == y + multiset{e}
    ensures x == y
  {
    assert x == (x + multiset{e}) - multiset{e};
    assert y == (y + multiset{e}) - multiset{e};
  }

  /** When no two timestamps are equal there is a single ordered arrangement:
      every ordered permutation of a strictly ordered list is that list. */
  lemma {:induction false} OrderedPermutationUnique(a: seq<Comment>, b: seq<Comment>)
    requires StrictlyChronological(a) && Chronological(b)
    requires multiset(a) == multiset(b)
    ensures a == b
  {
    assert |a| == |multiset(a)| == |multiset(b)| == |b|;
    if a != [] {
      var n := |a| - 1;
      SameLast(a, b);
      DropSameLast(a, b);
      assert StrictlyChronological(a[..n]) && Chronological(b[..n]);
      OrderedPermutationUnique(a[..n], b[..n]);
      assert a == a[..n] + [a[n]] && b == b[..n] + [b[n]];
    }
  }

  /** Whatever order the database picks for ties, a store whose timestamps
      strictly grow with insertion admits one answer to GET /:documentId: the
      document's comments in insertion order. */
  lemma AnyListIsInsertionOrder(store: seq<Comment>, documentId: string, r: seq<Comment>)
    requires StrictlyChronological(store)
    requires Chronological(r) && multiset(r) == multiset(OfDocument(store, documentId))
    ensures r == OfDocument(store, documentId)
  {
    OfDocumentKeepsStrict(store, documentId);
    OrderedPermutationUnique(OfDocument(store, documentId), r);
  }

  /** Under any tie order: a comment created strictly after all the stored ones
      comes back last in its document's list, and the other lists are unchanged. */
  lemma AnyListAfterCreate(store: seq<Comment>, c: Comment, documentId: string,
                           before: seq<Comment>, after: seq<Comment>)
    requires StrictlyChronological(store)
    requires forall x :: x in store ==> x.createdAt < c.createdAt
    requires Chronological(before) && multiset(before) == multiset(OfDocument(store, documentId))
    requires Chronological(after) && multiset(after) == multiset(OfDocument(store + [c], documentId))
    ensures after == before + (if c.documentId == documentId then [c] else [])
  {
    assert StrictlyChronological(store + [c]);
    AnyListIsInsertionOrder(store, documentId, before);
    AnyListIsInsertionOrder(store + [c], documentId, after);
    OfDocumentAppend(store, [c], documentId);
  }
}
