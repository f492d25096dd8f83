/**
 * The credential collection and the transactional session the controllers
 * run in: a lookup over the collection in its natural order, an update by
 * `_id` with a `$set` patch, and a session whose writes stay staged until
 * it commits.
 */
module CredentialStore {
  import opened Wrappers
  import opened Helpers
  import KeyedList

  datatype Credential = Credential(id: string, email: string, password: Hash, isActive: bool, user: string)

  /** The fields of the owning user that the login `populate` brings in. */
  datatype User = User(name: string, lastName: string, role: string, isActive: bool)

  datatype Role = Role(name: string)

  /** The `$set` document of an update: each field it writes, if any. */
  datatype Patch = Patch(password: Option<Hash>, isActive: Option<bool>)

  function EmailOf(c: Credential): string { c.email }
  function UserOf(c: Credential): string { c.user }
  function IdOf(c: Credential): string { c.id }

  /** `findOne({ email })`: the first credential, in collection order, with that email. */
  function FindByEmail(creds: seq<Credential>, email: string): (r: Option<Credential>)
    ensures r.None? <==> forall j :: 0 <= j < |creds| ==> creds[j].email != email
    ensures r.Some? ==> r.value in creds && r.value.email == email
  {
    var i := KeyedList.IndexOf(creds, EmailOf, email);
    if i == -1 then None else Some(creds[i])
  }

  /** `findOne({ user: id })`: the first credential, in collection order, owned by that user. */
  function FindByUser(creds: seq<Credential>, user: string): (r: Option<Credential>)
    ensures r.None? <==> forall j :: 0 <= j < |creds| ==> creds[j].user != user
    ensures r.Some? ==> r.value in creds && r.value.user == user
  {
    var i := KeyedList.IndexOf(creds, UserOf, user);
    if i == -1 then None else Some(creds[i])
  }

  /** The credential after a `$set` of `p`. */
  function Apply(c: Credential, p: Patch): Credential
  {
    c.(password := if p.password.Some? then p.password.value else c.password,
       isActive := if p.isActive.Some? then p.isActive.value else c.isActive)
  }

  /** MongoDB keeps `_id` unique within a collection. */
  predicate UniqueIds(creds: seq<Credential>)
  {
    forall i, j :: 0 <= i < j < |creds| ==> creds[i].id != creds[j].id
  }

  /**
   * `findByIdAndUpdate(id, { $set: p })` on the collection: the credential
   * with that `_id` gets the patch; nothing else changes, and no `_id`,
   * email or owner changes.
   */
  function UpdateById(creds: seq<Credential>, id: string, p: Patch): (r: seq<Credential>)
    ensures |r| == |creds|
    ensures forall j :: 0 <= j < |creds| ==>
      r[j].id == creds[j].id && r[j].email == creds[j].email && r[j].user == creds[j].user
    ensures forall j :: 0 <= j < |creds| && creds[j].id != id ==> r[j] == creds[j]
    ensures UniqueIds(creds) ==> UniqueIds(r)
    ensures UniqueIds(creds) ==>
      forall j :: 0 <= j < |creds| && creds[j].id == id ==> r[j] == Apply(creds[j], p)
  {
    var i := KeyedList.IndexOf(creds, IdOf, id);
    if i == -1 then creds else creds[i := Apply(creds[i], p)]
  }

  /** The document `findByIdAndUpdate` returns with `{ new: true }`. */
  function Updated(creds: seq<Credential>, id: string, p: Patch): (r: Option<Credential>)
    ensures r.Some? <==> exists j :: 0 <= j < |creds| && creds[j].id == id
    ensures r.Some? ==> r.value in UpdateById(creds, id, p) && r.value.id == id
  {
    var i := KeyedList.IndexOf(creds, IdOf, id);
    if i == -1 then None else Some(Apply(creds[i], p))
  }

  /** With unique ids, the document an update returns is the patched credential itself. */
  lemma UpdatedIsPatched(creds: seq<Credential>, j: nat, p: Patch)
    requires j < |creds|
    ensures UniqueIds(creds) ==> Updated(creds, creds[j].id, p) == Some(Apply(creds[j], p))
  {
  }

  /** An empty `$set` writes nothing. */
  lemma EmptyPatch(creds: seq<Credential>, id: string)
    ensures UpdateById(creds, id, Patch(None, None)) == creds
  {
  }

  /**
   * Writing a field the credential already holds, under the same patch,
   * writes nothing new: an update applied twice is applied once.
   */
  lemma UpdateByIdIdempotent(creds: seq<Credential>, id: string, p: Patch)
    ensures UpdateById(UpdateById(creds, id, p), id, p) == UpdateById(creds, id, p)
  {
  }

  /** An update by `_id` moves no credential: lookups by email or owner find the same place. */
  lemma UpdateKeepsLookups(creds: seq<Credential>, id: string, p: Patch, k: string)
    ensures KeyedList.IndexOf(UpdateById(creds, id, p), EmailOf, k) == KeyedList.IndexOf(creds, EmailOf, k)
    ensures KeyedList.IndexOf(UpdateById(creds, id, p), UserOf, k) == KeyedList.IndexOf(creds, UserOf, k)
  {
  }

  /** The database the controllers read and write. */
  class Database {
    var credentials: seq<Credential>
    var users: map<string, User>
    var roles: map<string, Role>
  }

  datatype TxnState = NoTxn | InTxn | Committed | Aborted

  /**
   * A `mongoose` client session. Writes made in its transaction are staged
   * and reach the database only when the transaction commits; an abort
   * discards them.
   */
  class Session {
    var txn: TxnState
    var ended: bool
    var staged: seq<Credential>

    /** `mongoose.startSession()` */
    constructor ()
      ensures txn == NoTxn && !ended && staged == []
    {
      txn, ended, staged := NoTxn, false, [];
    }

    /** `session.inTransaction()` */
    predicate InTransaction()
      reads this
    {
      txn == InTxn
    }

    /** `session.startTransaction()`: the transaction starts from the committed collection. */
    method StartTransaction(db: Database)
      requires txn == NoTxn && !ended
      modifies this`txn, this`staged
      ensures txn == InTxn && staged == db.credentials
    {
      txn, staged := InTxn, db.credentials;
    }

    /** A `findByIdAndUpdate` or `save` that passes this session. */
    method Write(id: string, p: Patch) returns (doc: Option<Credential>)
      requires txn == InTxn && !ended
      modifies this`staged
      ensures staged == UpdateById(old(staged), id, p)
      ensures doc == Updated(old(staged), id, p)
    {
      doc := Updated(staged, id, p);
      staged := UpdateById(staged, id, p);
    }

    /** `session.commitTransaction()`: the staged collection becomes the database's. */
    method CommitTransaction(db: Database)
      requires txn == InTxn && !ended
      modifies this`txn, db`credentials
      ensures txn == Committed && db.credentials == staged
    {
      txn := Committed;
      db.credentials := staged;
    }

    /** `session.abortTransaction()`: the staged writes are dropped. */
    method AbortTransaction()
      requires txn == InTxn && !ended
      modifies this`txn
      ensures txn == Aborted
    {
      txn := Aborted;
    }

    /** `session.endSession()` */
    method EndSession()
      modifies this`ended
      ensures ended
    {
      ended := true;
    }
  }

  /**
   * What a request did with its session: it never started one, or it
   * started one and ended it after committing or after aborting.
   */
  datatype SessionUse = NoSession | CommittedAndEnded | AbortedAndEnded

  /** The session object `s` is in the final state `use` describes. */
  predicate Finished(s: Session?, use: SessionUse)
    reads s
  {
    match use
    case NoSession => s == null
    case CommittedAndEnded => s != null && s.txn == Committed && s.ended
    case AbortedAndEnded => s != null && s.txn == Aborted && s.ended
  }

  /**
   * What a controller request comes to: the reply, the committed credential
   * collection afterwards, and what happened to its session.
   */
  datatype Outcome<T> = Outcome(reply: Reply<T>, credentials: seq<Credential>, session: SessionUse)

  /**
   * The session side of `handleError(res, err, session, ...)` and of the
   * `catch` blocks: a transaction still open is aborted.
   */
  method AbortIfOpen(s: Session)
    requires !s.ended
    modifies s`txn
    ensures s.txn == (if old(s.txn) == InTxn then Aborted else old(s.txn))
  {
    if s.InTransaction() {
      s.AbortTransaction();
    }
  }
}
