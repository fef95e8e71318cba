/** The document record of server/models/Document.js: a string _id, a
    required owner, a title defaulting to "Untitled", a list of collaborator
    ids, a type restricted to two names, and the timestamps Mongoose adds. */
module DocumentSchema {
  import opened Common

  type DocumentId = string

  /** The `type` enum. */
  datatype Kind = TextDocument | Whiteboard

  const DefaultTitle: string := "Untitled"
  const DefaultKind: Kind := TextDocument

  /** The name a kind is stored under. */
  function KindName(k: Kind): (s: string)
    ensures s == "document" || s == "whiteboard"
  {
    match k
    case TextDocument => "document"
    case Whiteboard => "whiteboard"
  }

  /** The enum validator: only the two listed names are accepted. */
  function ParseKind(s: string): (r: Option<Kind>)
    ensures r.Some? <==> (s == "document" || s == "whiteboard")
    ensures r.Some? ==> KindName(r.value) == s
  {
    if s == "document" then Some(TextDocument)
    else if s == "whiteboard" then Some(Whiteboard)
    else None
  }

  datatype DocumentRecord = DocumentRecord(
    id: DocumentId,
    owner: UserId,
    title: string,
    collaborators: seq<UserId>,
    kind: Kind,
    createdAt: nat,
    updatedAt: nat)

  /** What the schema itself demands of a stored record: the two required
      fields are present. It does not forbid repeated collaborators. */
  predicate SchemaValid(d: DocumentRecord) {
    d.id != [] && d.owner != []
  }

  /** new Document({...}) followed by validation on save: absent title and type
      take their defaults, a type outside the enum or a missing required field
      fails validation, and both timestamps are the save time. */
  function Construct(id: DocumentId, owner: UserId, title: Option<string>,
                     kind: Option<string>, collaborators: seq<UserId>, now: nat): (r: Option<DocumentRecord>)
    ensures r.Some? <==> id != [] && owner != [] && (kind.None? || ParseKind(kind.value).Some?)
    ensures r.Some? ==> SchemaValid(r.value)
    ensures r.Some? ==> r.value.id == id && r.value.owner == owner
                        && r.value.collaborators == collaborators
                        && r.value.createdAt == now && r.value.updatedAt == now
    ensures r.Some? ==> r.value.title == (if title.Some? then title.value else "Untitled")
    ensures r.Some? ==> KindName(r.value.kind) == (if kind.Some? then kind.value else "document")
  {
    var k := if kind.None? then Some(DefaultKind) else ParseKind(kind.value);
    if id == [] || owner == [] || k.None? then None
    else
      Some(DocumentRecord(id, owner, if title.Some? then title.value else DefaultTitle,
                          collaborators, k.value, now, now))
  }

  /** The schema admits a record whose collaborator list repeats an id; only
      the add-collaborator route keeps the list free of repeats. */
  lemma SchemaAllowsRepeatedCollaborators(id: DocumentId, owner: UserId, title: Option<string>,
                                          u: UserId, now: nat)
    requires id != [] && owner != []
    ensures Construct(id, owner, title, None, [u, u], now).Some?
    ensures Construct(id, owner, title, None, [u, u], now).value.collaborators == [u, u]
  {
  }
}
