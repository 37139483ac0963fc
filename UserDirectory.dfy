/** The development user directory of frontend/src/services/dbAuth.ts: accounts are
    documents of a `user` collection, looked up by e-mail or username. The collection is
    an in-memory table here, in insertion order, with a counter that hands out fresh
    document ids. */
module UserDirectory {
  import opened Wrappers
  import opened Text

  /** A document id; the collection's generated ids are abstracted to numbers. */
  type DocId = nat

  /** The fields stored in a `user` document. `id` is absent until it is written back after
      the insert; `password` and `photoURL` are optional in `DbUser`. */
  datatype UserDoc = UserDoc(
    id: Option<DocId>,
    username: string,
    firstName: string,
    lastName: string,
    email: string,
    password: Option<string>,
    photoURL: Option<string>)

  /** A document of the collection: its id and its fields. */
  datatype StoredUser = StoredUser(docId: DocId, data: UserDoc)

  /** `DbUser`, the account handed back to the caller. */
  datatype DbUser = DbUser(
    id: DocId,
    username: string,
    firstName: string,
    lastName: string,
    email: string,
    password: Option<string>,
    photoURL: Option<string>)

  /** The argument of `signUpWithDb`. */
  datatype SignUpInput = SignUpInput(
    username: string,
    firstName: string,
    lastName: string,
    email: string,
    password: string)

  /** The errors the two operations throw. */
  datatype AuthError = NoAccount | NoPassword | WrongPassword | EmailTaken | UsernameTaken

  /** The message each error carries. */
  function Message(e: AuthError): string {
    match e
    case NoAccount => "No account found for that email."
    case NoPassword => "This account has no password set."
    case WrongPassword => "Incorrect password."
    case EmailTaken => "That email is already registered."
    case UsernameTaken => "That username is already taken."
  }

  /** The field an equality query filters on. */
  datatype Field = Email | Username

  function FieldOf(d: UserDoc, f: Field): string {
    match f
    case Email => d.email
    case Username => d.username
  }

  /** `email.trim().toLowerCase()`. */
  function NormalizeEmail(email: string): string {
    Lower(Trim(email))
  }

  /** Normalising a normalised e-mail changes nothing. */
  lemma NormalizeEmailIdempotent(email: string)
    ensures NormalizeEmail(NormalizeEmail(email)) == NormalizeEmail(email)
  {
    var t := Trim(email);
    var n := Lower(t);
    if n != [] {
      LowerKeepsSpace(t[0]);
      LowerKeepsSpace(t[|t| - 1]);
    }
    TrimUnpadded(n);
    LowerIdempotent(t);
  }

  /** A query `where(field, "==", value)` with `limit(1)`: the index of the first document
      whose field equals `value`, or nothing. */
  function FirstWhere(records: seq<StoredUser>, f: Field, value: string): (r: Option<nat>)
    ensures r.None? <==> forall i | 0 <= i < |records| :: FieldOf(records[i].data, f) != value
    ensures r.Some? ==> r.value < |records| && FieldOf(records[r.value].data, f) == value
    ensures r.Some? ==> forall i | 0 <= i < r.value :: FieldOf(records[i].data, f) != value
  {
    if records == [] then None
    else if FieldOf(records[0].data, f) == value then Some(0)
    else
      match FirstWhere(records[1..], f, value)
      case None => None
      case Some(k) => Some(k + 1)
  }

  /** `{ id: doc0.id, ...data }`: the document's fields with the document id in front, so a
      stored `id` field takes precedence. */
  function UserOf(s: StoredUser): DbUser {
    DbUser(s.data.id.GetOr(s.docId), s.data.username, s.data.firstName, s.data.lastName,
           s.data.email, s.data.password, s.data.photoURL)
  }

  /** A password is set when it is present and not empty (`!data.password` is false). */
  predicate HasPassword(d: UserDoc) {
    d.password.Some? && d.password.value != ""
  }

  /** What `signInWithDb(email, password)` returns or throws on a table. */
  function SignInResult(records: seq<StoredUser>, email: string, password: string): Result<DbUser, AuthError> {
    match FirstWhere(records, Email, NormalizeEmail(email))
    case None => Failure(NoAccount)
    case Some(i) =>
      if !HasPassword(records[i].data) then Failure(NoPassword)
      else if records[i].data.password.value != password then Failure(WrongPassword)
      else Success(UserOf(records[i]))
  }

  /** The document the insert of `signUpWithDb` writes, before its id is written back. */
  function NewDoc(input: SignUpInput): UserDoc {
    UserDoc(None, input.username, input.firstName, input.lastName,
            NormalizeEmail(input.email), Some(input.password), None)
  }

  /** What `signUpWithDb(input)` returns or throws, when `newId` is the id the insert
      receives. */
  function SignUpResult(records: seq<StoredUser>, newId: DocId, input: SignUpInput): Result<DbUser, AuthError> {
    var email := NormalizeEmail(input.email);
    if FirstWhere(records, Email, email).Some? then Failure(EmailTaken)
    else if FirstWhere(records, Username, input.username).Some? then Failure(UsernameTaken)
    else Success(DbUser(newId, input.username, input.firstName, input.lastName, email, Some(input.password), None))
  }

  /** `updateDoc(doc(db, "user", docId), { id: docId })`: writes the id field of the
      document with that id and leaves every other document as it is. */
  function WithIdField(records: seq<StoredUser>, docId: DocId): (r: seq<StoredUser>)
    ensures |r| == |records|
    ensures forall i | 0 <= i < |r| ::
      r[i] == (if records[i].docId == docId then records[i].(data := records[i].data.(id := Some(docId))) else records[i])
  {
    seq(|records|, i requires 0 <= i < |records| =>
      if records[i].docId == docId then records[i].(data := records[i].data.(id := Some(docId))) else records[i])
  }

  /** The table after `signUpWithDb(input)`: unchanged when it throws, otherwise the insert
      followed by the id write-back. */
  function TableAfterSignUp(records: seq<StoredUser>, newId: DocId, input: SignUpInput): seq<StoredUser> {
    if SignUpResult(records, newId, input).Success? then
      WithIdField(records + [StoredUser(newId, NewDoc(input))], newId)
    else records
  }

  /** What holds of a table built only by sign-ups, where `nextId` is the next unused id:
      document ids are distinct and below `nextId`, each document's id field is its id,
      stored e-mails are normalised, and e-mails and usernames are pairwise distinct. */
  ghost predicate TableInvariant(records: seq<StoredUser>, nextId: nat) {
    && (forall i | 0 <= i < |records| :: records[i].docId < nextId)
    && (forall i | 0 <= i < |records| :: records[i].data.id == Some(records[i].docId))
    && (forall i | 0 <= i < |records| :: NormalizeEmail(records[i].data.email) == records[i].data.email)
    && (forall i, j | 0 <= i < j < |records| ::
          && records[i].docId != records[j].docId
          && records[i].data.email != records[j].data.email
          && records[i].data.username != records[j].data.username)
  }

  /** `signInWithDb` looks the account up by normalised e-mail; it throws "No account" exactly
      when no document has that e-mail, "no password" when the first match has none or an
      empty one, "Incorrect password" when it differs, and otherwise returns that document
      under its id. */
  lemma SignInCases(records: seq<StoredUser>, nextId: nat, email: string, password: string)
    requires TableInvariant(records, nextId)
    ensures SignInResult(records, email, password) == Failure(NoAccount)
        <==> forall i | 0 <= i < |records| :: records[i].data.email != NormalizeEmail(email)
    ensures forall i | 0 <= i < |records| && records[i].data.email == NormalizeEmail(email) ::
      SignInResult(records, email, password)
        == if !HasPassword(records[i].data) then Failure(NoPassword)
           else if records[i].data.password != Some(password) then Failure(WrongPassword)
           else Success(DbUser(records[i].docId, records[i].data.username, records[i].data.firstName,
                               records[i].data.lastName, NormalizeEmail(email),
                               Some(password), records[i].data.photoURL))
  {
    forall i | 0 <= i < |records| && records[i].data.email == NormalizeEmail(email)
      ensures FirstWhere(records, Email, NormalizeEmail(email)) == Some(i)
    {
      var k := FirstWhere(records, Email, NormalizeEmail(email)).value;
      assert !(k < i) && !(i < k);
    }
  }

  /** `signUpWithDb` throws "email already registered" exactly when some document has the
      normalised e-mail, and "username already taken" exactly when none has it but some
      document has the username as given; either way the table is unchanged. */
  lemma SignUpErrors(records: seq<StoredUser>, newId: DocId, input: SignUpInput)
    ensures SignUpResult(records, newId, input) == Failure(EmailTaken)
        <==> exists i | 0 <= i < |records| :: records[i].data.email == NormalizeEmail(input.email)
    ensures SignUpResult(records, newId, input) == Failure(UsernameTaken)
        <==> (&& (forall i | 0 <= i < |records| :: records[i].data.email != NormalizeEmail(input.email))
              && exists i | 0 <= i < |records| :: records[i].data.username == input.username)
    ensures SignUpResult(records, newId, input).Failure? ==> TableAfterSignUp(records, newId, input) == records
  {
    var email := NormalizeEmail(input.email);
    if w :| 0 <= w < |records| && records[w].data.email == email {
      assert FieldOf(records[w].data, Email) == email;
    }
    if w :| 0 <= w < |records| && records[w].data.username == input.username {
      assert FieldOf(records[w].data, Username) == input.username;
    }
  }

  /** A successful sign-up appends exactly one document under the new id, whose id field
      is that id, and changes no other document; it returns the input with the normalised
      e-mail and the new id. */
  lemma SignUpAppends(records: seq<StoredUser>, newId: DocId, input: SignUpInput)
    requires TableInvariant(records, newId)
    requires SignUpResult(records, newId, input).Success?
    ensures TableAfterSignUp(records, newId, input)
         == records + [StoredUser(newId, NewDoc(input).(id := Some(newId)))]
    ensures SignUpResult(records, newId, input).value
         == DbUser(newId, input.username, input.firstName, input.lastName,
                   NormalizeEmail(input.email), Some(input.password), None)
  {
    var appended := records + [StoredUser(newId, NewDoc(input))];
    assert forall i | 0 <= i < |records| :: appended[i] == records[i] && records[i].docId != newId;
  }

  /** Appending a document under the next unused id, with its id field written, a
      normalised e-mail and an e-mail and username no other document has, keeps the
      invariant. */
  lemma AppendKeepsInvariant(records: seq<StoredUser>, nextId: nat, s: StoredUser)
    requires TableInvariant(records, nextId)
    requires s.docId == nextId && s.data.id == Some(nextId)
    requires NormalizeEmail(s.data.email) == s.data.email
    requires forall i | 0 <= i < |records| :: records[i].data.email != s.data.email
    requires forall i | 0 <= i < |records| :: records[i].data.username != s.data.username
    ensures TableInvariant(records + [s], nextId + 1)
  {
    var t := records + [s];
    forall i, j | 0 <= i < j < |t|
      ensures t[i].docId != t[j].docId && t[i].data.email != t[j].data.email
      ensures t[i].data.username != t[j].data.username
    {
      assert t[i] == records[i];
      if j == |records| {
        assert t[j] == s;
      } else {
        assert t[j] == records[j];
      }
    }
  }

  /** Sign-ups keep the table invariant: e-mails and usernames stay pairwise distinct. */
  lemma SignUpKeepsInvariant(records: seq<StoredUser>, newId: DocId, input: SignUpInput)
    requires TableInvariant(records, newId)
    ensures TableInvariant(TableAfterSignUp(records, newId, input),
                           if SignUpResult(records, newId, input).Success? then newId + 1 else newId)
  {
    if SignUpResult(records, newId, input).Success? {
      SignUpAppends(records, newId, input);
      NormalizeEmailIdempotent(input.email);
      var email := NormalizeEmail(input.email);
      forall i | 0 <= i < |records|
        ensures records[i].data.email != email && records[i].data.username != input.username
      {
        assert FieldOf(records[i].data, Email) != email;
        assert FieldOf(records[i].data, Username) != input.username;
      }
      AppendKeepsInvariant(records, newId, StoredUser(newId, NewDoc(input).(id := Some(newId))));
    }
  }

  /** After a successful sign-up, signing in with the same e-mail (in any case and padding
      that normalises the same) and password returns the account sign-up returned, provided
      the password is not empty. */
  lemma SignUpThenSignIn(records: seq<StoredUser>, newId: DocId, input: SignUpInput, email: string)
    requires TableInvariant(records, newId)
    requires SignUpResult(records, newId, input).Success?
    requires NormalizeEmail(email) == NormalizeEmail(input.email)
    requires input.password != ""
    ensures SignInResult(TableAfterSignUp(records, newId, input), email, input.password)
         == SignUpResult(records, newId, input)
  {
    SignUpAppends(records, newId, input);
    SignUpKeepsInvariant(records, newId, input);
    var table := TableAfterSignUp(records, newId, input);
    assert table[|records|].data.email == NormalizeEmail(email);
    SignInCases(table, newId + 1, email, input.password);
  }

  /** An account created with an empty password can never sign in. */
  lemma EmptyPasswordNeverSignsIn(records: seq<StoredUser>, newId: DocId, input: SignUpInput,
                                  email: string, password: string)
    requires TableInvariant(records, newId)
    requires SignUpResult(records, newId, input).Success?
    requires input.password == ""
    requires NormalizeEmail(email) == NormalizeEmail(input.email)
    ensures SignInResult(TableAfterSignUp(records, newId, input), email, password) == Failure(NoPassword)
  {
    SignUpAppends(records, newId, input);
    SignUpKeepsInvariant(records, newId, input);
    var table := TableAfterSignUp(records, newId, input);
    assert table[|records|].data.email == NormalizeEmail(email);
    SignInCases(table, newId + 1, email, password);
  }

  /** The `user` collection, in memory, with the source of newId document ids. */
  class UserTable {
    var records: seq<StoredUser>
    var nextId: nat

    ghost predicate Valid()
      reads this
    {
      TableInvariant(records, nextId)
    }

    /** An empty collection. */
    constructor ()
      ensures Valid()
      ensures records == [] && nextId == 0
    {
      records := [];
      nextId := 0;
    }

    /** `signInWithDb(email, password)`: reads the table and changes nothing. */
    method SignIn(email: string, password: string) returns (r: Result<DbUser, AuthError>)
      ensures r == SignInResult(records, email, password)
    {
      var normalized := NormalizeEmail(email);
      var found := FirstWhere(records, Email, normalized);
      if found.None? {
        return Failure(NoAccount);
      }
      var data := records[found.value].data;
      if !HasPassword(data) {
        return Failure(NoPassword);
      }
      if data.password.value != password {
        return Failure(WrongPassword);
      }
      r := Success(UserOf(records[found.value]));
    }

    /** `signUpWithDb(input)`: checks the e-mail, then the username, then inserts the
        document under a newId id and writes that id into it. */
    method SignUp(input: SignUpInput) returns (r: Result<DbUser, AuthError>)
      requires Valid()
      modifies this
      ensures Valid()
      ensures r == SignUpResult(old(records), old(nextId), input)
      ensures records == TableAfterSignUp(old(records), old(nextId), input)
      ensures nextId == if r.Success? then old(nextId) + 1 else old(nextId)
    {
      SignUpKeepsInvariant(records, nextId, input);
      var email := NormalizeEmail(input.email);
      if FirstWhere(records, Email, email).Some? {
        return Failure(EmailTaken);
      }
      if FirstWhere(records, Username, input.username).Some? {
        return Failure(UsernameTaken);
      }
      var id := nextId;
      nextId := nextId + 1;
      records := records + [StoredUser(id, UserDoc(None, input.username, input.firstName, input.lastName,
                                                   email, Some(input.password), None))];
      records := WithIdField(records, id);
      r := Success(DbUser(id, input.username, input.firstName, input.lastName, email, Some(input.password), None));
    }
  }
}
