/**
 The user service over an encrypted phone column refines the same service over a
 plain one.
 */
module Users {
  import opened Wrappers
  import opened Crypto
  import Pagination

  type UserId = string

  /** A user row. The phone is ciphertext in the store and plain text in a reply. */
  datatype User = User(
    email: string,
    passwordHash: string,
    firstName: Option<string>,
    lastName: Option<string>,
    phone: Option<string>,
    role: string,
    active: bool
  )

  datatype CreateDto = CreateDto(
    email: string, passwordHash: string, firstName: Option<string>, lastName: Option<string>,
    phone: Option<string>, role: Change<string>)

  /** A field of a request: undefined, null or a value. Undefined leaves the column
      as it is; null clears it, which the store refuses of a required column. */
  datatype Change<T> = Keep | Clear | Put(value: T)

  /** A null phone is as good as none: both are falsy. */
  datatype UpdateDto = UpdateDto(
    firstName: Change<string>, lastName: Change<string>, phone: Option<string>,
    role: Change<string>, active: Change<bool>)

  datatype Error = Conflict | NotFound | Invalid | DecryptionFailed

  /** `id` and `iv` are the store's fresh id and the random iv of the operation. */
  datatype Op =
    | Create(id: UserId, dto: CreateDto, iv: Bytes)
    | Update(id: UserId, changes: UpdateDto, iv: Bytes)
    | Remove(id: UserId)
    | FindOne(id: UserId)

  datatype Reply = Shown(user: User) | Removed | Refused(error: Error)

  type Table = map<UserId, User>

  predicate EmailTaken(t: Table, email: string) { exists id | id in t :: t[id].email == email }

  /** A missing and an empty phone are both falsy. */
  function Given(phone: Option<string>): Option<string> {
    if phone == Some("") then None else phone
  }

  function Nullable<T>(change: Change<T>, stored: Option<T>): Option<T> {
    match change
    case Keep => stored
    case Clear => None
    case Put(v) => Some(v)
  }

  function Required<T>(change: Change<T>, stored: T): T { if change.Put? then change.value else stored }

  function NewUser(dto: CreateDto, phone: Option<string>): User {
    User(dto.email, dto.passwordHash, dto.firstName, dto.lastName, phone, Required(dto.role, "USER"), true)
  }

  function Patched(u: User, d: UpdateDto, phone: Option<string>): User {
    u.(firstName := Nullable(d.firstName, u.firstName),
       lastName := Nullable(d.lastName, u.lastName),
       phone := if phone.Some? then phone else u.phone,
       role := Required(d.role, u.role),
       active := Required(d.active, u.active))
  }

  // ---- the plain service ----

  function PlainStep(t: Table, op: Op): (Table, Reply) {
    match op
    case Create(id, dto, _) =>
      if EmailTaken(t, dto.email) || id in t then (t, Refused(Conflict))
      else if dto.role.Clear? then (t, Refused(Invalid))
      else var u := NewUser(dto, Given(dto.phone)); (t[id := u], Shown(u))
    case Update(id, changes, _) =>
      if id !in t then (t, Refused(NotFound))
      else if changes.role.Clear? || changes.active.Clear? then (t, Refused(Invalid))
      else var u := Patched(t[id], changes, Given(changes.phone)); (t[id := u], Shown(u))
    case Remove(id) => if id in t then (t - {id}, Removed) else (t, Refused(NotFound))
    case FindOne(id) => (t, if id in t then Shown(t[id]) else Refused(NotFound))
  }

  // ---- the service as written ----

  function EncryptPhone(c: Cipher, phone: Option<string>, iv: Bytes): Option<string> {
    if Given(phone).Some? then Some(Encrypted(c, iv, phone.value)) else None
  }

  /** `toResponseDto`. */
  function ToResponse(c: Cipher, u: User): Reply {
    if Given(u.phone).None? then Shown(u.(phone := None))
    else
      match Decrypted(c, u.phone.value)
      case Some(p) => Shown(u.(phone := Some(p)))
      case None => Refused(DecryptionFailed)
  }

  function StoredStep(c: Cipher, t: Table, op: Op): (Table, Reply) {
    match op
    case Create(id, dto, iv) =>
      if EmailTaken(t, dto.email) || id in t then (t, Refused(Conflict))
      else if dto.role.Clear? then (t, Refused(Invalid))
      else var u := NewUser(dto, EncryptPhone(c, dto.phone, iv)); (t[id := u], ToResponse(c, u))
    case Update(id, changes, iv) =>
      if id !in t then (t, Refused(NotFound))
      else if changes.role.Clear? || changes.active.Clear? then (t, Refused(Invalid))
      else var u := Patched(t[id], changes, EncryptPhone(c, changes.phone, iv)); (t[id := u], ToResponse(c, u))
    case Remove(id) => if id in t then (t - {id}, Removed) else (t, Refused(NotFound))
    case FindOne(id) => (t, if id in t then ToResponse(c, t[id]) else Refused(NotFound))
  }

  // ---- refinement ----

  /** The stored row shows the plain one: equal but for the phone, which decrypts
      to it. */
  ghost predicate ShowsUser(c: Cipher, stored: User, plain: User) {
    && stored.(phone := None) == plain.(phone := None)
    && (stored.phone.None? <==> plain.phone.None?)
    && (stored.phone.Some? ==>
          stored.phone.value != "" && plain.phone.value != "" && Decrypted(c, stored.phone.value) == plain.phone)
  }

  ghost predicate ShowsTable(c: Cipher, stored: Table, plain: Table) {
    stored.Keys == plain.Keys && forall id | id in stored :: ShowsUser(c, stored[id], plain[id])
  }

  lemma EncryptedPhoneShows(c: Cipher, phone: Option<string>, iv: Bytes)
    requires Inverts(c)
    ensures EncryptPhone(c, phone, iv).None? <==> Given(phone).None?
    ensures Given(phone).Some? ==>
              EncryptPhone(c, phone, iv).value != "" && Decrypted(c, EncryptPhone(c, phone, iv).value) == phone
  {
    if Given(phone).Some? { DecryptOfEncrypt(c, iv, phone.value); }
  }

  lemma ResponseShows(c: Cipher, stored: User, plain: User)
    requires ShowsUser(c, stored, plain)
    ensures ToResponse(c, stored) == Shown(plain)
  {
  }

  lemma EmailsAgree(c: Cipher, stored: Table, plain: Table, email: string)
    requires ShowsTable(c, stored, plain)
    ensures EmailTaken(stored, email) <==> EmailTaken(plain, email)
  {
  }

  lemma CreateRefines(c: Cipher, stored: Table, plain: Table, id: UserId, dto: CreateDto, iv: Bytes)
    requires Inverts(c) && ShowsTable(c, stored, plain)
    ensures StoredStep(c, stored, Create(id, dto, iv)).1 == PlainStep(plain, Create(id, dto, iv)).1
    ensures ShowsTable(c, StoredStep(c, stored, Create(id, dto, iv)).0, PlainStep(plain, Create(id, dto, iv)).0)
  {
    EmailsAgree(c, stored, plain, dto.email);
    EncryptedPhoneShows(c, dto.phone, iv);
    ResponseShows(c, NewUser(dto, EncryptPhone(c, dto.phone, iv)), NewUser(dto, Given(dto.phone)));
    hide EncryptPhone, EmailTaken, ToResponse;
  }

  lemma UpdateRefines(c: Cipher, stored: Table, plain: Table, id: UserId, d: UpdateDto, iv: Bytes)
    requires Inverts(c) && ShowsTable(c, stored, plain)
    ensures StoredStep(c, stored, Update(id, d, iv)).1 == PlainStep(plain, Update(id, d, iv)).1
    ensures ShowsTable(c, StoredStep(c, stored, Update(id, d, iv)).0, PlainStep(plain, Update(id, d, iv)).0)
  {
    EncryptedPhoneShows(c, d.phone, iv);
    if id in stored {
      ResponseShows(c, Patched(stored[id], d, EncryptPhone(c, d.phone, iv)), Patched(plain[id], d, Given(d.phone)));
    }
    hide EncryptPhone, EmailTaken, ToResponse, Nullable, Required;
  }

  lemma {:induction false} StepRefines(c: Cipher, stored: Table, plain: Table, op: Op)
    requires Inverts(c) && ShowsTable(c, stored, plain)
    ensures StoredStep(c, stored, op).1 == PlainStep(plain, op).1
    ensures ShowsTable(c, StoredStep(c, stored, op).0, PlainStep(plain, op).0)
  {
    match op {
      case Create(id, dto, iv) => CreateRefines(c, stored, plain, id, dto, iv);
      case Update(id, d, iv) => UpdateRefines(c, stored, plain, id, d, iv);
      case Remove(_) =>
      case FindOne(id) => if id in stored { ResponseShows(c, stored[id], plain[id]); }
    }
    hide ToResponse, NewUser, Patched, EmailTaken, EncryptPhone;
  }

  function PlainReplies(t: Table, ops: seq<Op>): seq<Reply>
    decreases |ops|
  {
    if ops == [] then []
    else var (t', reply) := PlainStep(t, ops[0]); [reply] + PlainReplies(t', ops[1..])
  }

  function StoredReplies(c: Cipher, t: Table, ops: seq<Op>): seq<Reply>
    decreases |ops|
  {
    if ops == [] then []
    else var (t', reply) := StoredStep(c, t, ops[0]); [reply] + StoredReplies(c, t', ops[1..])
  }

  /** The encrypted store refines the plain store: over every sequence of
      operations, whatever the ivs, every reply is the plain service's. In
      particular no reply is a decryption failure. */
  lemma {:induction false} EncryptedRefinesPlain(c: Cipher, stored: Table, plain: Table, ops: seq<Op>)
    requires Inverts(c) && ShowsTable(c, stored, plain)
    ensures StoredReplies(c, stored, ops) == PlainReplies(plain, ops)
    decreases |ops|
  {
    if ops != [] {
      StepRefines(c, stored, plain, ops[0]);
      EncryptedRefinesPlain(c, StoredStep(c, stored, ops[0]).0, PlainStep(plain, ops[0]).0, ops[1..]);
    }
  }

  function StoredAfter(c: Cipher, t: Table, ops: seq<Op>): Table
    decreases |ops|
  {
    if ops == [] then t else StoredAfter(c, StoredStep(c, t, ops[0]).0, ops[1..])
  }

  /** The operation gives the user a phone, or removes the user. */
  predicate Touches(op: Op, id: UserId) {
    (op.Update? && op.id == id && Given(op.changes.phone).Some?) || op == Remove(id)
  }

  lemma UntouchedStep(t: Table, op: Op, id: UserId)
    requires id in t && !Touches(op, id)
    ensures var t' := PlainStep(t, op).0;
            id in t' && t'[id].phone == t[id].phone && t'[id].email == t[id].email
  {
  }

  /** Updates without a phone, or with an empty one, leave it: after any run that
      never gives the user a phone nor removes the user, the same phone is shown. */
  lemma {:induction false} UntouchedPhoneIsKept(c: Cipher, stored: Table, plain: Table, id: UserId, ops: seq<Op>)
    requires Inverts(c) && ShowsTable(c, stored, plain) && id in plain
    requires forall i | 0 <= i < |ops| :: !Touches(ops[i], id)
    ensures var reply := StoredStep(c, StoredAfter(c, stored, ops), FindOne(id)).1;
            reply.Shown? && reply.user.phone == plain[id].phone && reply.user.email == plain[id].email
    decreases |ops|
  {
    if ops == [] {
      StepRefines(c, stored, plain, FindOne(id));
    } else {
      StepRefines(c, stored, plain, ops[0]);
      UntouchedStep(plain, ops[0], id);
      hide ShowsTable, StoredStep, PlainStep, Touches;
      UntouchedPhoneIsKept(c, StoredStep(c, stored, ops[0]).0, PlainStep(plain, ops[0]).0, id, ops[1..]);
    }
  }

  // ---- what each operation means to a caller ----

  /** A row shown to a caller: itself, but for its phone. */
  ghost predicate ShownAs(reply: Reply, row: User, phone: Option<string>) {
    reply.Shown? && reply.user.(phone := None) == row.(phone := None) && reply.user.phone == phone
  }

  /** Creating replies with a conflict exactly when some row has the email or the id
      is in use, and then stores nothing; so does a null role. Otherwise it stores
      the row as given, active, a plain user unless a role is asked for, its phone
      encrypted, and shows it with the phone in the clear. */
  lemma {:induction false} CreateLaw(c: Cipher, t: Table, id: UserId, dto: CreateDto, iv: Bytes)
    requires Inverts(c)
    ensures
      var (t', reply) := StoredStep(c, t, Create(id, dto, iv));
      && (reply == Refused(Conflict) <==> id in t || exists other | other in t :: t[other].email == dto.email)
      && (reply.Refused? ==> t' == t && (reply.error == Conflict || (reply.error == Invalid && dto.role == Clear)))
      && (!reply.Refused? ==>
            && dto.role != Clear && id in t' && t' == t[id := t'[id]]
            && t'[id].email == dto.email && t'[id].passwordHash == dto.passwordHash
            && t'[id].firstName == dto.firstName && t'[id].lastName == dto.lastName
            && t'[id].role == (if dto.role.Put? then dto.role.value else "USER") && t'[id].active == true
            && ShownAs(reply, t'[id], if dto.phone == Some("") then None else dto.phone)
            && (t'[id].phone.Some? ==> Decrypted(c, t'[id].phone.value) == dto.phone))
  {
    EncryptedPhoneShows(c, dto.phone, iv);
    hide EncryptPhone, Inverts;
  }

  /** An update of a found user sets each field it names and keeps every other: a
      null clears a name and is refused of the role and the active flag; the email
      and the password never change; an absent or empty phone keeps the stored one. */
  lemma {:induction false} UpdateLaw(c: Cipher, t: Table, id: UserId, d: UpdateDto, iv: Bytes)
    requires Inverts(c)
    ensures
      var (t', reply) := StoredStep(c, t, Update(id, d, iv));
      && (reply == Refused(NotFound) <==> id !in t)
      && (reply == Refused(Invalid) <==> id in t && (d.role == Clear || d.active == Clear))
      && (id !in t || d.role == Clear || d.active == Clear ==> t' == t)
      && (id in t && d.role != Clear && d.active != Clear ==>
            && id in t' && t' == t[id := t'[id]]
            && t'[id].email == t[id].email && t'[id].passwordHash == t[id].passwordHash
            && (d.firstName == Keep ==> t'[id].firstName == t[id].firstName)
            && (d.firstName == Clear ==> t'[id].firstName == None)
            && (d.firstName.Put? ==> t'[id].firstName == Some(d.firstName.value))
            && (d.lastName == Keep ==> t'[id].lastName == t[id].lastName)
            && (d.lastName == Clear ==> t'[id].lastName == None)
            && (d.lastName.Put? ==> t'[id].lastName == Some(d.lastName.value))
            && t'[id].role == (if d.role.Put? then d.role.value else t[id].role)
            && t'[id].active == (if d.active.Put? then d.active.value else t[id].active)
            && (d.phone == None || d.phone == Some("") ==> t'[id].phone == t[id].phone)
            && (d.phone.Some? && d.phone.value != "" ==>
                  t'[id].phone.Some? && Decrypted(c, t'[id].phone.value) == d.phone && ShownAs(reply, t'[id], d.phone))
            && reply == StoredStep(c, t', FindOne(id)).1)
  {
    EncryptedPhoneShows(c, d.phone, iv);
    hide EncryptPhone, Inverts;
  }

  /** A found user is shown with its phone decrypted, if it has one, and nothing is
      shown of a user whose phone does not decrypt; removing takes away exactly that
      user. */
  lemma {:induction false} FindAndRemoveLaw(c: Cipher, t: Table, id: UserId)
    ensures
      var (t', reply) := StoredStep(c, t, FindOne(id));
      && t' == t
      && (id !in t ==> reply == Refused(NotFound))
      && (id in t && (t[id].phone == None || t[id].phone == Some("")) ==> ShownAs(reply, t[id], None))
      && (id in t && t[id].phone.Some? && t[id].phone.value != "" ==>
            var phone := Decrypted(c, t[id].phone.value);
            if phone.Some? then ShownAs(reply, t[id], phone) else reply == Refused(DecryptionFailed))
    ensures
      var (t', reply) := StoredStep(c, t, Remove(id));
      && t' == t - {id} && reply == (if id in t then Removed else Refused(NotFound))
      && StoredStep(c, t', FindOne(id)).1 == Refused(NotFound)
  {
  }

  /** No two users have one email. */
  ghost predicate NoSharedEmail(t: Table) { forall a, b | a in t && b in t && t[a].email == t[b].email :: a == b }

  lemma StepKeepsEmailsApart(c: Cipher, t: Table, op: Op)
    requires NoSharedEmail(t)
    ensures NoSharedEmail(StoredStep(c, t, op).0)
  {
    hide EncryptPhone, ToResponse, Nullable, Required;
  }

  /** Over every sequence of operations emails stay unique, and so they are where
      the table started empty. */
  lemma {:induction false} EmailsStayApart(c: Cipher, t: Table, ops: seq<Op>)
    requires NoSharedEmail(t)
    ensures NoSharedEmail(StoredAfter(c, t, ops))
    decreases |ops|
  {
    if ops != [] {
      StepKeepsEmailsApart(c, t, ops[0]);
      hide StoredStep, NoSharedEmail;
      EmailsStayApart(c, StoredStep(c, t, ops[0]).0, ops[1..]);
    }
  }

  // ---- listing ----

  datatype Query = Query(search: Option<string>, role: Option<string>, page: Option<nat>, limit: Option<nat>)

  /** The where clause; `contains` is the store's case-insensitive containment, and
      a null name contains nothing. */
  predicate Matches(u: User, q: Query, contains: (string, string) -> bool) {
    && (Given(q.search).Some? ==>
          || contains(u.email, q.search.value)
          || (u.firstName.Some? && contains(u.firstName.value, q.search.value))
          || (u.lastName.Some? && contains(u.lastName.value, q.search.value)))
    && (Given(q.role).Some? ==> u.role == q.role.value)
  }

  /** The matching rows, in order. */
  function Selected(rows: seq<User>, q: Query, contains: (string, string) -> bool): seq<User> {
    if rows == [] then []
    else (if Matches(rows[0], q, contains) then [rows[0]] else []) + Selected(rows[1..], q, contains)
  }

  lemma {:induction false} SelectedCounts(rows: seq<User>, q: Query, contains: (string, string) -> bool, u: User)
    ensures multiset(Selected(rows, q, contains))[u] == if Matches(u, q, contains) then multiset(rows)[u] else 0
  {
    if rows != [] {
      hide Matches;
      assert rows == [rows[0]] + rows[1..];
      SelectedCounts(rows[1..], q, contains, u);
    }
  }

  /** The pages of a query, joined, hold every row it asks for as often as the table
      does, and no other row: those with the role, if one is given, whose email or
      name contains the search, if one is given. */
  lemma {:induction false} PagesHoldEveryMatch(rows: seq<User>, q: Query, contains: (string, string) -> bool, limit: nat, u: User)
    requires limit >= 1
    ensures var selected := Selected(rows, q, contains);
            var pages := multiset(Pagination.Pages(selected, limit, Pagination.TotalPages(|selected|, limit)));
            var asked :=
              && (q.role == None || q.role == Some("") || q.role == Some(u.role))
              && (q.search == None || q.search == Some("")
                  || contains(u.email, q.search.value)
                  || (exists name :: u.firstName == Some(name) && contains(name, q.search.value))
                  || (exists name :: u.lastName == Some(name) && contains(name, q.search.value)));
            pages[u] == if asked then multiset(rows)[u] else 0
  {
    hide Selected, Pagination.TotalPages;
    Pagination.PagesPartition(Selected(rows, q, contains), limit);
    SelectedCounts(rows, q, contains, u);
  }

  // ---- the class ----

  class UserService {
    const crypto: CryptoService
    var users: Table

    constructor (crypto: CryptoService)
      ensures this.crypto == crypto && users == map[]
    {
      this.crypto, users := crypto, map[];
    }

    method Create(id: UserId, dto: CreateDto, iv: Bytes) returns (reply: Reply)
      modifies this
      ensures (users, reply) == StoredStep(crypto.cipher, old(users), Op.Create(id, dto, iv))
      ensures reply == Refused(Conflict) <==> id in old(users) || exists other | other in old(users) :: old(users)[other].email == dto.email
    {
      if EmailTaken(users, dto.email) || id in users { return Refused(Conflict); }
      var encryptedPhone := None;
      if dto.phone.Some? && dto.phone.value != "" {
        var text := crypto.Encrypt(dto.phone.value, iv);
        encryptedPhone := Some(text);
      }
      if dto.role.Clear? { return Refused(Invalid); }
      var user := NewUser(dto, encryptedPhone);
      users := users[id := user];
      reply := ToResponseDto(user);
    }

    method Update(id: UserId, dto: UpdateDto, iv: Bytes) returns (reply: Reply)
      modifies this
      ensures (users, reply) == StoredStep(crypto.cipher, old(users), Op.Update(id, dto, iv))
    {
      if id !in users { return Refused(NotFound); }
      var encryptedPhone := None;
      if dto.phone.Some? && dto.phone.value != "" {
        var text := crypto.Encrypt(dto.phone.value, iv);
        encryptedPhone := Some(text);
      }
      if dto.role.Clear? || dto.active.Clear? { return Refused(Invalid); }
      var user := Patched(users[id], dto, encryptedPhone);
      users := users[id := user];
      reply := ToResponseDto(user);
    }

    method Remove(id: UserId) returns (reply: Reply)
      modifies this
      ensures (users, reply) == StoredStep(crypto.cipher, old(users), Op.Remove(id))
    {
      if id !in users { return Refused(NotFound); }
      users := users - {id};
      reply := Removed;
    }

    method FindOne(id: UserId) returns (reply: Reply)
      ensures (users, reply) == StoredStep(crypto.cipher, users, Op.FindOne(id))
    {
      if id !in users { return Refused(NotFound); }
      reply := ToResponseDto(users[id]);
    }

    /** One page of the rows the query selects, in the order of its sort. One phone
        that does not decrypt fails the whole page. */
    method FindAll(rows: seq<User>, query: Query, contains: (string, string) -> bool)
      returns (data: Option<seq<User>>, meta: Pagination.Meta)
      requires query.page.GetOr(1) >= 1 && query.limit.GetOr(10) >= 1
      ensures var selected, page, limit := Selected(rows, query, contains), query.page.GetOr(1), query.limit.GetOr(10);
              && meta == Pagination.MetaOf(|selected|, page, limit)
              && var users := Pagination.Page(selected, page, limit);
                 && (data.Some? <==> forall u | u in users :: ToResponse(crypto.cipher, u).Shown?)
                 && (data.Some? ==> |data.value| == |users|)
                 && (data.Some? ==> forall i | 0 <= i < |users| :: Shown(data.value[i]) == ToResponse(crypto.cipher, users[i]))
    {
      hide ToResponse, Selected, Pagination.Slice, Pagination.TotalPages;
      var page, limit := query.page.GetOr(1), query.limit.GetOr(10);
      var skip := (page - 1) * limit;
      var selected := Selected(rows, query, contains);
      var total := |selected|;
      var users := Pagination.Slice(selected, skip, limit);
      var totalPages := Pagination.TotalPages(total, limit);
      meta := Pagination.Meta(page, limit, total, totalPages, page < totalPages, page > 1);
      data := ToResponses(users);
    }

    /** The rows with their phones decrypted, or nothing if one does not decrypt. */
    method ToResponses(users: seq<User>) returns (data: Option<seq<User>>)
      ensures data.Some? <==> forall u | u in users :: ToResponse(crypto.cipher, u).Shown?
      ensures data.Some? ==> |data.value| == |users|
      ensures data.Some? ==> forall i | 0 <= i < |users| :: Shown(data.value[i]) == ToResponse(crypto.cipher, users[i])
    {
      hide ToResponse;
      var shown: seq<User> := [];
      for i := 0 to |users|
        invariant |shown| == i
        invariant forall k | 0 <= k < i :: Shown(shown[k]) == ToResponse(crypto.cipher, users[k])
      {
        var reply := ToResponseDto(users[i]);
        if !reply.Shown? { return None; }
        shown := shown + [reply.user];
      }
      data := Some(shown);
    }

    method ToResponseDto(user: User) returns (reply: Reply)
      ensures reply == ToResponse(crypto.cipher, user)
    {
      if user.phone.None? || user.phone.value == "" { return Shown(user.(phone := None)); }
      var phone := crypto.Decrypt(user.phone.value);
      reply := if phone.Some? then Shown(user.(phone := phone)) else Refused(DecryptionFailed);
    }

    /** The changes of the update event: the fields of the request that are not
        undefined, with their values. */
    method CollectChanges<T(==)>(fields: seq<(string, Option<T>)>) returns (changes: map<string, T>)
      requires forall i, j | 0 <= i < j < |fields| :: fields[i].0 != fields[j].0
      ensures forall key, value :: key in changes && changes[key] == value <==> (key, Some(value)) in fields
    {
      changes := map[];
      for n := 0 to |fields|
        invariant forall key, value :: key in changes && changes[key] == value <==> (key, Some(value)) in fields[..n]
      {
        var (key, value) := fields[n];
        assert forall i | 0 <= i < n :: fields[i].0 != key;
        assert fields[..n + 1] == fields[..n] + [fields[n]];
        if value.Some? {
          changes := changes[key := value.value];
        }
      }
      assert fields[..|fields|] == fields;
    }
  }
}
