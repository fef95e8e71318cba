/** The document routes of server/routes/documents.js as methods on a table
    from document id to record. Each handler runs its checks in the source's
    order and returns at the first that fails, with the source's status code
    and message; only a handler that passes every check changes the table. */
module DocumentRoutes {
  import opened Common
  import opened DocumentSchema
  import AuthRoutes

  /** JavaScript falsiness of an optional string body field: absent or "". */
  predicate Falsy(f: Option<string>) {
    f.None? || f.value == []
  }

  /** `!f` for a request-body field that may hold any JSON value. */
  predicate FalsyField(f: Field) {
    f.Absent? || (f.Str? && f.text == [])
  }

  /** Read access is collaborator membership; the owner field is not consulted. */
  predicate IsCollaborator(user: UserId, d: DocumentRecord) {
    user in d.collaborators
  }

  predicate Distinct(s: seq<UserId>) {
    forall i, j :: 0 <= i < j < |s| ==> s[i] != s[j]
  }

  /** What every stored record satisfies under these routes: it is stored
      under its own id, the schema's required fields are there, the owner is
      the first collaborator and no collaborator is listed twice. */
  predicate WellFormed(id: DocumentId, d: DocumentRecord) {
    && d.id == id
    && SchemaValid(d)
    && |d.collaborators| > 0 && d.collaborators[0] == d.owner
    && Distinct(d.collaborators)
  }

  /** GET / orders by updatedAt, most recent first. */
  predicate SortedByRecency(s: seq<DocumentRecord>) {
    forall i, j :: 0 <= i < j < |s| ==> s[i].updatedAt >= s[j].updatedAt
  }

  /** The position of the first record from i on that is not more recent
      than d, or |s| when there is none. */
  function RecencyPosition(s: seq<DocumentRecord>, d: DocumentRecord, i: nat): (k: nat)
    requires i <= |s|
    ensures i <= k <= |s|
    ensures forall x :: i <= x < k ==> s[x].updatedAt > d.updatedAt
    ensures k < |s| ==> s[k].updatedAt <= d.updatedAt
    decreases |s| - i
  {
    if i == |s| || s[i].updatedAt <= d.updatedAt then i else RecencyPosition(s, d, i + 1)
  }

  /** Places d into a list sorted by recency, in front of every record that is
      not more recent than it. */
  function InsertByRecency(s: seq<DocumentRecord>, d: DocumentRecord): (r: seq<DocumentRecord>)
    requires SortedByRecency(s)
    ensures SortedByRecency(r)
    ensures exists k :: 0 <= k <= |s| && r == s[..k] + [d] + s[k..]
  {
    var k := RecencyPosition(s, d, 0);
    InsertAtPositionSorted(s, d, k);
    s[..k] + [d] + s[k..]
  }

  /** Inserting d after the records more recent than it and before the first
      that is not keeps a recency-sorted list sorted. */
  lemma InsertAtPositionSorted(s: seq<DocumentRecord>, d: DocumentRecord, k: nat)
    requires SortedByRecency(s) && k <= |s|
    requires forall x :: 0 <= x < k ==> s[x].updatedAt > d.updatedAt
    requires k < |s| ==> s[k].updatedAt <= d.updatedAt
    ensures SortedByRecency(s[..k] + [d] + s[k..])
  {
    var r := s[..k] + [d] + s[k..];
    assert forall x :: 0 <= x < k ==> r[x] == s[x];
    assert r[k] == d;
    assert forall x :: k < x < |r| ==> r[x] == s[x - 1];
    forall i, j | 0 <= i < j < |r| ensures r[i].updatedAt >= r[j].updatedAt {
      if j == k {
        assert r[i] == s[i];
      } else if i == k {
        assert r[j] == s[j - 1] && s[k].updatedAt >= s[j - 1].updatedAt;
      } else if i < k {
        assert r[i] == s[i];
      }
    }
  }

  /** Inserting a record whose id is new into a list with distinct ids keeps
      the ids distinct and adds exactly that record. */
  lemma InsertKeepsIdsDistinct(s: seq<DocumentRecord>, d: DocumentRecord, r: seq<DocumentRecord>, k: nat)
    requires k <= |s| && r == s[..k] + [d] + s[k..]
    requires forall i, j :: 0 <= i < j < |s| ==> s[i].id != s[j].id
    requires forall i :: 0 <= i < |s| ==> s[i].id != d.id
    ensures forall i, j :: 0 <= i < j < |r| ==> r[i].id != r[j].id
    ensures forall x :: x in r <==> x in s || x == d
  {
    forall i, j | 0 <= i < j < |r| ensures r[i].id != r[j].id {
      var si := if i < k then i else i - 1;
      var sj := if j <= k then j else j - 1;
      if i == k {
        assert r[i] == d && r[j] == s[sj];
      } else if j == k {
        assert r[j] == d && r[i] == s[si];
      } else {
        assert r[i] == s[si] && r[j] == s[sj] && si < sj;
      }
    }
    assert r == s[..k] + ([d] + s[k..]);
    assert s == s[..k] + s[k..];
  }

  /** The state of the GET / loop: r holds, each once and sorted by recency,
      exactly the caller's documents among those already visited (the ids not
      in pending). */
  ghost predicate Collected(docs: map<DocumentId, DocumentRecord>, user: UserId,
                            pending: set<DocumentId>, r: seq<DocumentRecord>)
  {
    && (forall i :: 0 <= i < |r| ==>
          r[i].id in docs && r[i].id !in pending && docs[r[i].id] == r[i] && IsCollaborator(user, r[i]))
    && (forall id :: id in docs && id !in pending && IsCollaborator(user, docs[id]) ==> docs[id] in r)
    && (forall i, j :: 0 <= i < j < |r| ==> r[i].id != r[j].id)
    && SortedByRecency(r)
  }

  /** One step of the GET / loop: visiting a document of the caller inserts it. */
  lemma CollectOne(docs: map<DocumentId, DocumentRecord>, user: UserId, pending: set<DocumentId>,
                   r: seq<DocumentRecord>, id: DocumentId, r': seq<DocumentRecord>, k: nat)
    requires forall x :: x in docs ==> docs[x].id == x
    requires Collected(docs, user, pending, r)
    requires id in pending && id in docs && IsCollaborator(user, docs[id])
    requires k <= |r| && r' == r[..k] + [docs[id]] + r[k..] && SortedByRecency(r')
    ensures Collected(docs, user, pending - {id}, r')
  {
    var d := docs[id];
    InsertKeepsIdsDistinct(r, d, r', k);
    forall i | 0 <= i < |r'|
      ensures r'[i].id in docs && r'[i].id !in pending - {id} && docs[r'[i].id] == r'[i]
              && IsCollaborator(user, r'[i])
    {
      assert r'[i] in r || r'[i] == d;
    }
  }

  class DocumentTable {
    var docs: map<DocumentId, DocumentRecord>

    ghost predicate Valid()
      reads this
    {
      forall id :: id in docs ==> WellFormed(id, docs[id])
    }

    constructor ()
      ensures Valid() && docs == map[]
    {
      docs := map[];
    }

    /** POST /: a new record owned by the caller, whose only collaborator is
        the caller, with a falsy title replaced by "Untitled" and a falsy type
        by "document". A type outside the enum fails validation on save. The
        id is a fresh uuid. */
    method Create(caller: Principal, newId: DocumentId, title: Option<string>,
                  kind: Option<string>, now: nat) returns (reply: Reply<DocumentRecord>)
      requires Valid()
      requires newId != [] && newId !in docs
      modifies this
      ensures Valid()
      ensures reply.Success? <==> caller.id != [] && (Falsy(kind) || ParseKind(kind.value).Some?)
      ensures reply.Success? ==>
        && reply.status == 201
        && docs == old(docs)[newId := reply.value]
        && reply.value.id == newId
        && reply.value.owner == caller.id
        && reply.value.collaborators == [caller.id]
        && reply.value.title == (if Falsy(title) then "Untitled" else title.value)
        && KindName(reply.value.kind) == (if Falsy(kind) then "document" else kind.value)
        && reply.value.createdAt == now && reply.value.updatedAt == now
      ensures reply.Failure? ==> reply == Failure(500, "Server Error") && docs == old(docs)
    {
      var t := if Falsy(title) then "Untitled" else title.value;
      var k := if Falsy(kind) then "document" else kind.value;
      var record := Construct(newId, caller.id, Some(t), Some(k), [caller.id], now);
      if record.None? {
        return Failure(500, "Server Error");
      }
      docs := docs[newId := record.value];
      reply := Success(201, record.value);
    }

    /** GET /: every record listing the caller as a collaborator, each once,
        most recently updated first. */
    method List(caller: Principal) returns (r: seq<DocumentRecord>)
      requires Valid()
      ensures forall i :: 0 <= i < |r| ==>
        r[i].id in docs && docs[r[i].id] == r[i] && IsCollaborator(caller.id, r[i])
      ensures forall id :: id in docs && IsCollaborator(caller.id, docs[id]) ==> docs[id] in r
      ensures forall i, j :: 0 <= i < j < |r| ==> r[i].id != r[j].id
      ensures SortedByRecency(r)
    {
      r := [];
      var pending := docs.Keys;
      while pending != {}
        invariant pending <= docs.Keys
        invariant Collected(docs, caller.id, pending, r)
        decreases pending
      {
        var id :| id in pending;
        var d := docs[id];
        if IsCollaborator(caller.id, d) {
          var r' := InsertByRecency(r, d);
          var k :| 0 <= k <= |r| && r' == r[..k] + [d] + r[k..];
          CollectOne(docs, caller.id, pending, r, id, r', k);
          r := r';
        }
        pending := pending - {id};
      }
    }

    /** GET /:id: 404 for an unknown id, 403 for a caller who is not a
        collaborator, otherwise the record. */
    method Get(caller: Principal, id: DocumentId) returns (reply: Reply<DocumentRecord>)
      requires Valid()
      ensures id !in docs ==> reply == Failure(404, "Document not found")
      ensures id in docs && !IsCollaborator(caller.id, docs[id]) ==>
        reply == Failure(403, "User not authorized")
      ensures reply.Success? <==> id in docs && IsCollaborator(caller.id, docs[id])
      ensures reply.Success? ==> reply == Success(200, docs[id])
    {
      if id !in docs {
        return Failure(404, "Document not found");
      }
      var d := docs[id];
      if !IsCollaborator(caller.id, d) {
        return Failure(403, "User not authorized");
      }
      reply := Success(200, d);
    }

    /** POST /:id/collaborators: 404 for an unknown document, 403 for a caller
        who is not the owner (before any user lookup), 404 for an email no user
        has, 400 for a user already listed; otherwise that user's id is
        appended and the new list returned. */
    method AddCollaborator(caller: Principal, id: DocumentId, email: string,
                           users: seq<AuthRoutes.User>, now: nat) returns (reply: Reply<seq<UserId>>)
      requires Valid()
      modifies this
      ensures Valid()
      ensures reply.Failure? ==> docs == old(docs)
      ensures id !in old(docs) ==> reply == Failure(404, "Document not found")
      ensures id in old(docs) && old(docs)[id].owner != caller.id ==>
        reply == Failure(403, "Only the owner can add collaborators")
      ensures id in old(docs) && old(docs)[id].owner == caller.id
              && AuthRoutes.FindByEmail(users, email).None? ==>
        reply == Failure(404, "Could not add collaborator")
      ensures id in old(docs) && old(docs)[id].owner == caller.id
              && AuthRoutes.FindByEmail(users, email).Some?
              && AuthRoutes.FindByEmail(users, email).value.id in old(docs)[id].collaborators ==>
        reply == Failure(400, "User is already a collaborator")
      ensures id in old(docs) && old(docs)[id].owner == caller.id
              && AuthRoutes.FindByEmail(users, email).Some?
              && AuthRoutes.FindByEmail(users, email).value.id !in old(docs)[id].collaborators ==>
        var added := AuthRoutes.FindByEmail(users, email).value.id;
        && docs == old(docs)[id := old(docs)[id].(collaborators := old(docs)[id].collaborators + [added],
                                                   updatedAt := now)]
        && reply == Success(200, docs[id].collaborators)
    {
      if id !in docs {
        return Failure(404, "Document not found");
      }
      var d := docs[id];
      if d.owner != caller.id {
        return Failure(403, "Only the owner can add collaborators");
      }
      var found := AuthRoutes.FindByEmail(users, email);
      if found.None? {
        return Failure(404, "Could not add collaborator");
      }
      var userId := found.value.id;
      if userId in d.collaborators {
        return Failure(400, "User is already a collaborator");
      }
      var d' := d.(collaborators := d.collaborators + [userId], updatedAt := now);
      docs := docs[id := d'];
      reply := Success(200, d'.collaborators);
    }

    /** PUT /:id: 400 for a falsy title before the document is looked up, then
        404, then 403 for a caller who is not the owner. The stored title is
        the trimmed one, so a title of white space only is stored as "". Only
        the title changes, and updatedAt when the title is a different one.
        A truthy title that is not a string reaches title.trim(), which
        throws, so the owner's request ends in 500 with nothing saved. */
    method Rename(caller: Principal, id: DocumentId, title: Field, now: nat)
      returns (reply: Reply<DocumentRecord>)
      requires Valid()
      modifies this
      ensures Valid()
      ensures reply.Failure? ==> docs == old(docs)
      ensures FalsyField(title) ==> reply == Failure(400, "Title is required")
      ensures !FalsyField(title) && id !in old(docs) ==> reply == Failure(404, "Document not found")
      ensures !FalsyField(title) && id in old(docs) && old(docs)[id].owner != caller.id ==>
        reply == Failure(403, "Only the owner can rename")
      ensures title.NonString? && id in old(docs) && old(docs)[id].owner == caller.id ==>
        reply == Failure(500, "Server Error")
      ensures title.Str? && title.text != [] && id in old(docs) && old(docs)[id].owner == caller.id ==>
        var before := old(docs)[id];
        var newTitle := Trim(title.text);
        && reply.Success? && reply.status == 200
        && docs == old(docs)[id := reply.value]
        && reply.value == before.(title := newTitle, updatedAt := reply.value.updatedAt)
        && reply.value.updatedAt == (if before.title == newTitle then before.updatedAt else now)
    {
      if FalsyField(title) {
        return Failure(400, "Title is required");
      }
      if id !in docs {
        return Failure(404, "Document not found");
      }
      var d := docs[id];
      if d.owner != caller.id {
        return Failure(403, "Only the owner can rename");
      }
      if title.NonString? {
        return Failure(500, "Server Error");
      }
      var newTitle := Trim(title.text);
      var d' := if d.title == newTitle then d else d.(title := newTitle, updatedAt := now);
      docs := docs[id := d'];
      reply := Success(200, d');
    }

    /** DELETE /:id: 404 for an unknown id, 403 for anyone but the owner
        (collaborators included); the owner's request removes exactly that id. */
    method Delete(caller: Principal, id: DocumentId) returns (reply: Reply<string>)
      requires Valid()
      modifies this
      ensures Valid()
      ensures id !in old(docs) ==> reply == Failure(404, "Document not found") && docs == old(docs)
      ensures id in old(docs) && old(docs)[id].owner != caller.id ==>
        reply == Failure(403, "Only the owner can delete") && docs == old(docs)
      ensures id in old(docs) && old(docs)[id].owner == caller.id ==>
        reply == Success(200, "Document removed") && docs == old(docs) - {id}
    {
      if id !in docs {
        return Failure(404, "Document not found");
      }
      if docs[id].owner != caller.id {
        return Failure(403, "Only the owner can delete");
      }
      docs := docs - {id};
      reply := Success(200, "Document removed");
    }
  }

  /** Under the table invariant the owner is always a collaborator, so the
      owner can always open the document while it exists. */
  lemma OwnerIsCollaborator(id: DocumentId, d: DocumentRecord)
    requires WellFormed(id, d)
    ensures IsCollaborator(d.owner, d)
  {
    assert d.collaborators[0] == d.owner;
  }

  /** A successful add makes the new user a collaborator, so the same user's
      GET on the document now succeeds, and every earlier collaborator keeps
      access. */
  lemma AddGrantsAccess(d: DocumentRecord, added: UserId, now: nat)
    ensures IsCollaborator(added, d.(collaborators := d.collaborators + [added], updatedAt := now))
    ensures forall u :: IsCollaborator(u, d) ==>
      IsCollaborator(u, d.(collaborators := d.collaborators + [added], updatedAt := now))
  {
    var d' := d.(collaborators := d.collaborators + [added], updatedAt := now);
    assert d'.collaborators[|d.collaborators|] == added;
    forall u | IsCollaborator(u, d) ensures IsCollaborator(u, d') {
      var i :| 0 <= i < |d.collaborators| && d.collaborators[i] == u;
      assert d'.collaborators[i] == u;
    }
  }

  /** An owner creates a document and shares it: the collaborator can then
      open it but not rename it. */
  method ShareScenario(owner: Principal, peer: Principal)
    requires owner.id != [] && peer.id != [] && owner.id != peer.id
  {
    var table := new DocumentTable();
    var created := table.Create(owner, "d1", Some("Draft"), None, 1);
    assert created.Success? && table.docs["d1"].collaborators == [owner.id];
    var users := [AuthRoutes.User(peer.id, "Peer", "peer@example.com", "secret1")];
    assert AuthRoutes.FindByEmail(users, "peer@example.com") == Some(users[0]);
    var added := table.AddCollaborator(owner, "d1", "peer@example.com", users, 2);
    assert [owner.id] + [peer.id] == [owner.id, peer.id];
    assert added == Success(200, [owner.id, peer.id]);
    var seen := table.Get(peer, "d1");
    assert seen.Success? && seen.value.title == "Draft";
    var denied := table.Rename(peer, "d1", Str("Mine"), 3);
    assert denied == Failure(403, "Only the owner can rename");
  }

  /** The owner's rename is what later reads see; nobody else can delete. */
  method RenameScenario(owner: Principal, other: Principal)
    requires owner.id != [] && owner.id != other.id
  {
    var table := new DocumentTable();
    var created := table.Create(owner, "d1", None, Some("whiteboard"), 1);
    assert created.Success? && table.docs["d1"].title == "Untitled";
    TrimUnpadded("Final");
    var renamed := table.Rename(owner, "d1", Str("Final"), 4);
    var seen := table.Get(owner, "d1");
    assert seen.Success? && seen.value.title == "Final" && seen.value.updatedAt == 4;
    var removed := table.Delete(other, "d1");
    assert removed == Failure(403, "Only the owner can delete");
  }
}
