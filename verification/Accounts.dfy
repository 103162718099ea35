/**
 Tiers, users and panel tokens. Each store operation is one transaction that commits or leaves the
 tables alone. Names arrive trimmed; SQLite compares them without regard to ASCII case. Identifiers
 are random, so none comes up twice.
 */
module Accounts {
  import opened Basics

  type Id = string

  datatype Role = Admin | Member | OtherRole

  datatype Tier = Tier(name: string, rpm: int, successLimit: int, isDefault: bool)

  datatype User = User(username: string, password: string, role: Role, enabled: bool, tier: Id, version: nat)

  /** `issued` holds every user identifier ever given out. */
  datatype Store = Store(tiers: map<Id, Tier>, users: map<Id, User>, issued: set<Id>)

  datatype Error =
    | BlankName | NegativeRate | NegativeLimit | TierNameTaken | TierNotFound | DefaultTierProtected | DefaultTierMissing
    | BlankUsername | InvalidRole | UsernameTaken | UserNotFound | TierNotAssignable | BlankPassword | LastAdmin

  datatype Result<T> = Ok(value: T) | Err(error: Error)

  datatype TierUpdates = TierUpdates(name: Option<string>, rpm: Option<int>, successLimit: Option<int>, isDefault: Option<bool>)

  datatype UserUpdates = UserUpdates(enabled: Option<bool>, role: Option<Role>, tier: Option<Id>, password: Option<string>, revoke: bool)

  // ---------- queries ----------

  function Fold(s: string): string {
    seq(|s|, i requires 0 <= i < |s| => if 'A' <= s[i] <= 'Z' then s[i] - 'A' + 'a' else s[i])
  }

  function Defaults(tiers: map<Id, Tier>): set<Id> {
    set id | id in tiers && tiers[id].isDefault
  }

  /** SELECT id FROM tiers WHERE is_default = 1 LIMIT 1 */
  ghost function DefaultTier(tiers: map<Id, Tier>): Option<Id> {
    if exists id :: id in Defaults(tiers) then (var id :| id in Defaults(tiers); Some(id)) else None
  }

  predicate TierNamed(tiers: map<Id, Tier>, name: string, except: set<Id>) {
    exists id :: id in tiers && id !in except && Fold(tiers[id].name) == Fold(name)
  }

  predicate UserNamed(users: map<Id, User>, name: string) {
    exists id :: id in users && Fold(users[id].username) == Fold(name)
  }

  function EnabledAdmins(users: map<Id, User>): set<Id> {
    set id | id in users && users[id].role.Admin? && users[id].enabled
  }

  function Demoted(tiers: map<Id, Tier>): map<Id, Tier> {
    map id | id in tiers :: tiers[id].(isDefault := false)
  }

  // ---------- tiers ----------

  function CreateTier(s: Store, id: Id, name: string, rpm: int, successLimit: int, isDefault: bool): Result<Store> {
    if name == "" then Err(BlankName)
    else if rpm < 0 then Err(NegativeRate)
    else if successLimit < 0 then Err(NegativeLimit)
    else if TierNamed(s.tiers, name, {}) then Err(TierNameTaken)
    else
      var none := |Defaults(s.tiers)| == 0;
      var tiers := if isDefault then Demoted(s.tiers) else s.tiers;
      Ok(s.(tiers := tiers[id := Tier(name, rpm, successLimit, isDefault || none)]))
  }

  function UpdatedTier(t: Tier, u: TierUpdates): Tier {
    Tier(if u.name.Some? then u.name.value else t.name,
         if u.rpm.Some? then u.rpm.value else t.rpm,
         if u.successLimit.Some? then u.successLimit.value else t.successLimit,
         t.isDefault || u.isDefault == Some(true))
  }

  function UpdateTier(s: Store, id: Id, u: TierUpdates): Result<Store> {
    if id !in s.tiers then Err(TierNotFound)
    else if u.name == Some("") then Err(BlankName)
    else if u.rpm.Some? && u.rpm.value < 0 then Err(NegativeRate)
    else if u.successLimit.Some? && u.successLimit.value < 0 then Err(NegativeLimit)
    else if u.isDefault == Some(false) && s.tiers[id].isDefault then Err(DefaultTierProtected)
    else if u.name.Some? && TierNamed(s.tiers, u.name.value, {id}) then Err(TierNameTaken)
    else
      var promotes := u.isDefault == Some(true) && !s.tiers[id].isDefault;
      Ok(s.(tiers := (if promotes then Demoted(s.tiers) else s.tiers)[id := UpdatedTier(s.tiers[id], u)]))
  }

  /** Users of a tier that goes away move to the default tier. */
  function Moved(users: map<Id, User>, from: Id, to: Id): map<Id, User> {
    map id | id in users :: if users[id].tier == from then users[id].(tier := to) else users[id]
  }

  ghost function DeleteTier(s: Store, id: Id): Result<Store> {
    if id !in s.tiers then Err(TierNotFound)
    else if s.tiers[id].isDefault then Err(DefaultTierProtected)
    else if DefaultTier(s.tiers).None? then Err(DefaultTierMissing)
    else Ok(s.(tiers := s.tiers - {id}, users := Moved(s.users, id, DefaultTier(s.tiers).value)))
  }

  // ---------- users ----------

  /** CreateUser, and registerUserInTransaction with the role of a member */
  ghost function CreateUser(s: Store, id: Id, username: string, password: string, role: Role): Result<Store> {
    if username == "" then Err(BlankUsername)
    else if role.OtherRole? then Err(InvalidRole)
    else if DefaultTier(s.tiers).None? then Err(TierNotFound)
    else if UserNamed(s.users, username) then Err(UsernameTaken)
    else Ok(s.(users := s.users[id := User(username, password, role, true, DefaultTier(s.tiers).value, 0)], issued := s.issued + {id}))
  }

  /** Whether an update of a user makes older tokens invalid. */
  predicate Bumps(user: User, u: UserUpdates) {
    || (u.enabled.Some? && u.enabled.value != user.enabled)
    || (u.role.Some? && u.role.value != user.role)
    || u.password.Some?
    || u.revoke
  }

  function UpdatedUser(user: User, u: UserUpdates): User {
    User(user.username,
         if u.password.Some? then u.password.value else user.password,
         if u.role.Some? then u.role.value else user.role,
         if u.enabled.Some? then u.enabled.value else user.enabled,
         if u.tier.Some? then u.tier.value else user.tier,
         if Bumps(user, u) then user.version + 1 else user.version)
  }

  function UpdateUser(s: Store, id: Id, u: UserUpdates): Result<Store> {
    if id !in s.users then Err(UserNotFound)
    else if u.role == Some(OtherRole) then Err(InvalidRole)
    else if u.tier.Some? && u.tier.value !in s.tiers then Err(TierNotAssignable)
    else if u.password == Some("") then Err(BlankPassword)
    else
      var user := s.users[id];
      var user' := UpdatedUser(user, u);
      var users := s.users[id := user'];
      var removesAdmin := user.role.Admin? && user.enabled && (!user'.role.Admin? || !user'.enabled);
      if removesAdmin && |EnabledAdmins(users)| < 1 then Err(LastAdmin) else Ok(s.(users := users))
  }

  function DeleteUser(s: Store, id: Id): Result<Store> {
    if id !in s.users then Err(UserNotFound)
    else if s.users[id].role.Admin? && s.users[id].enabled && |EnabledAdmins(s.users)| <= 1 then Err(LastAdmin)
    else Ok(s.(users := s.users - {id}))
  }

  // ---------- runs ----------

  datatype Op =
    | CreateTierOp(tier: Id, name: string, rpm: int, successLimit: int, isDefault: bool)
    | UpdateTierOp(tier: Id, tierUpdates: TierUpdates)
    | DeleteTierOp(tier: Id)
    | CreateUserOp(user: Id, username: string, password: string, role: Role)
    | UpdateUserOp(user: Id, userUpdates: UserUpdates)
    | DeleteUserOp(user: Id)

  predicate Enabled(s: Store, op: Op) {
    && (op.CreateTierOp? ==> op.tier !in s.tiers)
    && (op.CreateUserOp? ==> op.user !in s.issued)
  }

  ghost function Apply(s: Store, op: Op): Result<Store> {
    match op
    case CreateTierOp(id, name, rpm, limit, isDefault) => CreateTier(s, id, name, rpm, limit, isDefault)
    case UpdateTierOp(id, u) => UpdateTier(s, id, u)
    case DeleteTierOp(id) => DeleteTier(s, id)
    case CreateUserOp(id, username, password, role) => CreateUser(s, id, username, password, role)
    case UpdateUserOp(id, u) => UpdateUser(s, id, u)
    case DeleteUserOp(id) => DeleteUser(s, id)
  }

  ghost function Next(s: Store, op: Op): Store {
    if Enabled(s, op) && Apply(s, op).Ok? then Apply(s, op).value else s
  }

  ghost function Run(s: Store, ops: seq<Op>): Store {
    if ops == [] then s else Next(Run(s, ops[..|ops| - 1]), ops[|ops| - 1])
  }

  // ---------- one default tier ----------

  ghost predicate OneDefault(tiers: map<Id, Tier>) {
    exists d :: Defaults(tiers) == {d}
  }

  ghost predicate TiersExist(s: Store) {
    forall id :: id in s.users ==> s.users[id].tier in s.tiers
  }

  ghost predicate Inv(s: Store) {
    OneDefault(s.tiers) && TiersExist(s) && s.users.Keys <= s.issued
  }

  lemma CreateTierKeeps(s: Store, op: Op)
    requires Inv(s) && op.CreateTierOp?
    ensures Inv(Next(s, op))
  {
    var d :| Defaults(s.tiers) == {d};
    var s' := Next(s, op);
    if s' != s {
      if op.isDefault {
        assert Defaults(s'.tiers) == {op.tier};
      } else {
        assert |{d}| == 1;
        assert d in Defaults(s.tiers);
        assert Defaults(s'.tiers) == {d};
      }
    }
  }

  lemma UpdateTierKeeps(s: Store, op: Op)
    requires Inv(s) && op.UpdateTierOp?
    ensures Inv(Next(s, op))
  {
    var d :| Defaults(s.tiers) == {d};
    var s' := Next(s, op);
    assert d in Defaults(s.tiers);
    if s' != s {
      if op.tierUpdates.isDefault == Some(true) && !s.tiers[op.tier].isDefault {
        assert Defaults(s'.tiers) == {op.tier};
      } else {
        assert op.tier in s.tiers && s'.tiers[op.tier].isDefault == s.tiers[op.tier].isDefault;
        assert Defaults(s'.tiers) == Defaults(s.tiers);
      }
    }
  }

  lemma DeleteTierKeeps(s: Store, op: Op)
    requires Inv(s) && op.DeleteTierOp?
    ensures Inv(Next(s, op))
  {
    var d :| Defaults(s.tiers) == {d};
    var s' := Next(s, op);
    assert d in Defaults(s.tiers);
    if s' != s {
      assert Defaults(s'.tiers) == Defaults(s.tiers);
      assert DefaultTier(s.tiers) == Some(d);
    }
  }

  lemma NextKeeps(s: Store, op: Op)
    requires Inv(s)
    ensures Inv(Next(s, op))
  {
    match op
    case CreateTierOp(_, _, _, _, _) => CreateTierKeeps(s, op);
    case UpdateTierOp(_, _) => UpdateTierKeeps(s, op);
    case DeleteTierOp(_) => DeleteTierKeeps(s, op);
    case CreateUserOp(_, _, _, _) =>
    case UpdateUserOp(_, _) =>
    case DeleteUserOp(_) =>
  }

  /** From a store with one default tier, every run leaves exactly one, and every user's tier exists. */
  lemma {:induction false} RunKeepsOneDefault(s: Store, ops: seq<Op>)
    requires Inv(s)
    ensures Inv(Run(s, ops))
  {
    if ops != [] {
      RunKeepsOneDefault(s, ops[..|ops| - 1]);
      NextKeeps(Run(s, ops[..|ops| - 1]), ops[|ops| - 1]);
    }
  }

  // ---------- the last administrator ----------

  lemma NextKeepsAdmin(s: Store, op: Op)
    requires |EnabledAdmins(s.users)| > 0 && s.users.Keys <= s.issued
    ensures |EnabledAdmins(Next(s, op).users)| > 0
  {
    var s' := Next(s, op);
    var admins := EnabledAdmins(s.users);
    var a :| a in admins;
    if op.DeleteUserOp? && s' != s {
      DeleteKeepsAdmin(s.users, op.user);
    } else if a in EnabledAdmins(s'.users) {
    } else {
      assert op.UpdateUserOp? && op.user == a;
    }
  }

  lemma DeleteKeepsAdmin(users: map<Id, User>, id: Id)
    requires |EnabledAdmins(users)| > 0
    requires id in EnabledAdmins(users) ==> |EnabledAdmins(users)| > 1
    ensures |EnabledAdmins(users - {id})| > 0
  {
    assert EnabledAdmins(users - {id}) == EnabledAdmins(users) - {id};
  }

  /** No run takes the last enabled administrator away. */
  lemma {:induction false} RunKeepsAdmin(s: Store, ops: seq<Op>)
    requires Inv(s) && |EnabledAdmins(s.users)| > 0
    ensures |EnabledAdmins(Run(s, ops).users)| > 0
  {
    if ops != [] {
      RunKeepsOneDefault(s, ops[..|ops| - 1]);
      RunKeepsAdmin(s, ops[..|ops| - 1]);
      NextKeepsAdmin(Run(s, ops[..|ops| - 1]), ops[|ops| - 1]);
    }
  }

  /** Deleting is refused for the last administrator if and only if nobody else is an enabled one. */
  lemma DeleteProtectsExactly(s: Store, id: Id)
    ensures DeleteUser(s, id) == Err(LastAdmin) <==> EnabledAdmins(s.users) == {id}
  {
    var admins := EnabledAdmins(s.users);
    assert admins == {id} ==> id in admins && |admins| == 1;
    if DeleteUser(s, id) == Err(LastAdmin) {
      assert id in admins;
      assert |admins - {id}| == 0;
      assert admins == {id};
    }
  }

  /** An otherwise good update is refused if and only if it takes the only enabled administrator's powers away. */
  lemma UpdateProtectsExactly(s: Store, id: Id, u: UserUpdates)
    requires id in s.users && u.role != Some(OtherRole) && (u.tier.Some? ==> u.tier.value in s.tiers) && u.password != Some("")
    ensures var user' := UpdatedUser(s.users[id], u);
            UpdateUser(s, id, u) == Err(LastAdmin)
            <==> EnabledAdmins(s.users) == {id} && !(user'.role.Admin? && user'.enabled)
  {
    var users := s.users[id := UpdatedUser(s.users[id], u)];
    if UpdateUser(s, id, u) == Err(LastAdmin) {
      assert EnabledAdmins(users) == {};
      forall x | x in EnabledAdmins(s.users) ensures x == id {
        assert x != id ==> x in EnabledAdmins(users);
      }
      assert id in EnabledAdmins(s.users);
    }
    if EnabledAdmins(s.users) == {id} && !(users[id].role.Admin? && users[id].enabled) {
      assert id in EnabledAdmins(s.users);
      forall x | x in users ensures x !in EnabledAdmins(users) {
        assert x != id ==> x !in EnabledAdmins(s.users);
      }
      assert EnabledAdmins(users) == {};
    }
  }

  // ---------- tokens ----------

  datatype Claims = Claims(user: Id, role: Role, version: int)

  /** The panel middleware's test, once a token has parsed. */
  predicate Accepted(s: Store, c: Claims) {
    c.user in s.users && s.users[c.user].enabled && c.role == s.users[c.user].role && c.version == s.users[c.user].version
  }

  /** A committed change of role, enabled flag or password, a revocation, or the removal of the user. */
  ghost predicate Revokes(s: Store, op: Op, user: Id) {
    && Enabled(s, op) && Apply(s, op).Ok?
    && ((op.UpdateUserOp? && op.user == user && Bumps(s.users[user], op.userUpdates)) || (op.DeleteUserOp? && op.user == user))
  }

  /** A token that is accepted stops being accepted at exactly the steps that revoke it. */
  lemma AcceptedUntilRevoked(s: Store, op: Op, c: Claims)
    requires Inv(s) && Accepted(s, c)
    ensures Accepted(Next(s, op), c) <==> !Revokes(s, op, c.user)
  {
  }

  /** The user is gone, or has moved past a version. */
  predicate Past(s: Store, user: Id, version: int) {
    user in s.issued && (user in s.users ==> s.users[user].version > version)
  }

  lemma NextPast(s: Store, op: Op, user: Id, version: int)
    requires Past(s, user, version)
    ensures Past(Next(s, op), user, version)
  {
  }

  lemma {:induction false} RunPast(s: Store, ops: seq<Op>, user: Id, version: int)
    requires Past(s, user, version)
    ensures Past(Run(s, ops), user, version)
  {
    if ops != [] {
      RunPast(s, ops[..|ops| - 1], user, version);
      NextPast(Run(s, ops[..|ops| - 1]), ops[|ops| - 1], user, version);
    }
  }

  /** Once a step has revoked a user's tokens, no token of a version from before it is accepted in any later state. */
  lemma RevokedForever(s: Store, op: Op, later: seq<Op>, c: Claims)
    requires Inv(s) && c.user in s.users && c.version <= s.users[c.user].version && Revokes(s, op, c.user)
    ensures !Accepted(Run(Next(s, op), later), c)
  {
    RunPast(Next(s, op), later, c.user, c.version);
  }

  /** The token a user is given at a login. */
  function TokenFor(s: Store, user: Id): Claims
    requires user in s.users
  {
    Claims(user, s.users[user].role, s.users[user].version)
  }

  /** A token is accepted exactly if it is the one its user, enabled, would be given now; so a changed role is enough to refuse it. */
  lemma AcceptedIsCurrent(s: Store, c: Claims)
    ensures Accepted(s, c) <==> c.user in s.users && s.users[c.user].enabled && c == TokenFor(s, c.user)
  {
  }

  /** No step of a run revokes a user's tokens. */
  ghost predicate NeverRevoked(s: Store, ops: seq<Op>, user: Id) {
    ops == [] || (NeverRevoked(s, ops[..|ops| - 1], user) && !Revokes(Run(s, ops[..|ops| - 1]), ops[|ops| - 1], user))
  }

  /** The life of a token: given to an enabled user, it is accepted after a run if and only if no step of the run revoked it. */
  lemma {:induction false} TokenLivesUntilRevoked(s: Store, ops: seq<Op>, user: Id)
    requires Inv(s) && user in s.users && s.users[user].enabled
    ensures Accepted(Run(s, ops), TokenFor(s, user)) <==> NeverRevoked(s, ops, user)
    ensures !NeverRevoked(s, ops, user) ==> Past(Run(s, ops), user, s.users[user].version)
  {
    if ops != [] {
      var n := |ops| - 1;
      var before := Run(s, ops[..n]);
      TokenLivesUntilRevoked(s, ops[..n], user);
      RunKeepsOneDefault(s, ops[..n]);
      if NeverRevoked(s, ops[..n], user) {
        AcceptedUntilRevoked(before, ops[n], TokenFor(s, user));
        if Revokes(before, ops[n], user) {
          RevokingPasses(before, ops[n], user);
        }
      } else {
        NextPast(before, ops[n], user, s.users[user].version);
      }
    }
  }

  lemma RevokingPasses(s: Store, op: Op, user: Id)
    requires Inv(s) && user in s.users && Revokes(s, op, user)
    ensures Past(Next(s, op), user, s.users[user].version)
  {
  }

  // ---------- names ----------

  predicate IsUpper(c: char) {
    'A' <= c <= 'Z'
  }

  /** Equal, or the upper and lower case of one ASCII letter. */
  predicate SameLetter(a: char, b: char) {
    a == b || (IsUpper(a) && b as int == a as int + 32) || (IsUpper(b) && a as int == b as int + 32)
  }

  predicate SameName(a: string, b: string) {
    |a| == |b| && forall i :: 0 <= i < |a| ==> SameLetter(a[i], b[i])
  }

  lemma FoldLetter(a: string, i: int)
    requires 0 <= i < |a|
    ensures Fold(a)[i] as int == if IsUpper(a[i]) then a[i] as int + 32 else a[i] as int
  {
  }

  lemma FoldIffSame(a: string, b: string)
    ensures Fold(a) == Fold(b) <==> SameName(a, b)
  {
    if Fold(a) == Fold(b) {
      assert |Fold(a)| == |a| && |Fold(b)| == |b|;
      forall i | 0 <= i < |a| ensures SameLetter(a[i], b[i]) {
        FoldLetter(a, i);
        FoldLetter(b, i);
      }
    }
    if SameName(a, b) {
      forall i | 0 <= i < |a| ensures Fold(a)[i] == Fold(b)[i] {
        FoldLetter(a, i);
        FoldLetter(b, i);
        assert SameLetter(a[i], b[i]);
      }
    }
  }

  /** No two users, and no two tiers, have names that differ at most in ASCII case. */
  ghost predicate NamesUnique(s: Store) {
    && (forall a, b :: a in s.users && b in s.users && a != b ==> !SameName(s.users[a].username, s.users[b].username))
    && (forall a, b :: a in s.tiers && b in s.tiers && a != b ==> !SameName(s.tiers[a].name, s.tiers[b].name))
  }

  ghost predicate UserNameTaken(s: Store, name: string) {
    exists u :: u in s.users && SameName(s.users[u].username, name)
  }

  ghost predicate TierNameTakenBut(s: Store, name: string, except: set<Id>) {
    exists t :: t in s.tiers && t !in except && SameName(s.tiers[t].name, name)
  }

  lemma UserNamedMeans(s: Store, name: string)
    ensures UserNamed(s.users, name) <==> UserNameTaken(s, name)
  {
    forall u | u in s.users ensures Fold(s.users[u].username) == Fold(name) <==> SameName(s.users[u].username, name) {
      FoldIffSame(s.users[u].username, name);
    }
  }

  lemma TierNamedMeans(s: Store, name: string, except: set<Id>)
    ensures TierNamed(s.tiers, name, except) <==> TierNameTakenBut(s, name, except)
  {
    forall t | t in s.tiers ensures Fold(s.tiers[t].name) == Fold(name) <==> SameName(s.tiers[t].name, name) {
      FoldIffSame(s.tiers[t].name, name);
    }
  }

  lemma SameNameSymmetric(a: string, b: string)
    ensures SameName(a, b) <==> SameName(b, a)
  {
  }

  /** A table gets one name more, or one name changed, that no other row has. */
  lemma UserNameAdded(s: Store, s': Store, id: Id, name: string)
    requires NamesUnique(s) && !UserNameTaken(s, name) && s'.tiers == s.tiers
    requires id in s'.users && s'.users[id].username == name && s'.users - {id} == s.users - {id}
    ensures NamesUnique(s')
  {
    forall u | u in s.users ensures !SameName(s.users[u].username, name) && !SameName(name, s.users[u].username) {
      SameNameSymmetric(s.users[u].username, name);
    }
    forall u | u in s'.users && u != id ensures u in s.users && s'.users[u] == s.users[u] {
      assert u in (s'.users - {id}) && (s'.users - {id})[u] == s'.users[u];
    }
  }

  lemma TierNameAdded(s: Store, s': Store, id: Id, name: string)
    requires NamesUnique(s) && !TierNameTakenBut(s, name, {id}) && s'.users == s.users
    requires id in s'.tiers && s'.tiers[id].name == name
    requires forall t :: t in s'.tiers && t != id ==> t in s.tiers && s'.tiers[t].name == s.tiers[t].name
    ensures NamesUnique(s')
  {
    forall t | t in s.tiers && t != id ensures !SameName(s.tiers[t].name, name) && !SameName(name, s.tiers[t].name) {
      SameNameSymmetric(s.tiers[t].name, name);
    }
  }

  /** Without a new name nothing can clash. */
  lemma NamesStay(s: Store, s': Store)
    requires NamesUnique(s)
    requires forall u :: u in s'.users ==> u in s.users && s'.users[u].username == s.users[u].username
    requires forall t :: t in s'.tiers ==> t in s.tiers && s'.tiers[t].name == s.tiers[t].name
    ensures NamesUnique(s')
  {
  }

  lemma NextKeepsNames(s: Store, op: Op)
    requires NamesUnique(s)
    ensures NamesUnique(Next(s, op))
  {
    if Enabled(s, op) && Apply(s, op).Ok? {
      match op
      case CreateTierOp(tier, name, _, _, _) =>
        TierNamedMeans(s, name, {});
        TierNameAdded(s, Next(s, op), tier, name);
      case UpdateTierOp(tier, u) =>
        if u.name.Some? {
          TierNamedMeans(s, u.name.value, {tier});
          TierNameAdded(s, Next(s, op), tier, u.name.value);
        } else {
          NamesStay(s, Next(s, op));
        }
      case CreateUserOp(user, username, _, _) =>
        UserNamedMeans(s, username);
        UserNameAdded(s, Next(s, op), user, username);
      case _ => NamesStay(s, Next(s, op));
    }
  }

  /** No run gives two users, or two tiers, names that differ at most in ASCII case. */
  lemma {:induction false} RunKeepsNames(s: Store, ops: seq<Op>)
    requires NamesUnique(s)
    ensures NamesUnique(Run(s, ops))
  {
    if ops != [] {
      RunKeepsNames(s, ops[..|ops| - 1]);
      NextKeepsNames(Run(s, ops[..|ops| - 1]), ops[|ops| - 1]);
    }
  }

  // ---------- what each operation does to the rows ----------

  ghost predicate AnyDefault(s: Store) {
    exists t :: t in s.tiers && s.tiers[t].isDefault
  }

  /**
   A new user is refused for a blank name, an unknown role, no default tier or a name taken, in this order. Otherwise
   the row is enabled, of the given role, on a default tier and at version 0, nothing else changes, and a token for
   that version and role is accepted.
   */
  ghost predicate UserCreated(s: Store, id: Id, username: string, password: string, role: Role, r: Result<Store>) {
    && (r == Err(BlankUsername) <==> username == "")
    && (r == Err(InvalidRole) <==> username != "" && role == OtherRole)
    && (r == Err(TierNotFound) <==> username != "" && role != OtherRole && !AnyDefault(s))
    && (r == Err(UsernameTaken) <==> username != "" && role != OtherRole && AnyDefault(s) && UserNameTaken(s, username))
    && (r.Ok? <==> username != "" && role != OtherRole && AnyDefault(s) && !UserNameTaken(s, username))
    && (r.Ok? ==>
          && id in r.value.users && Accepted(r.value, Claims(id, role, 0))
          && r.value.users[id].username == username && r.value.users[id].password == password
          && r.value.users[id].tier in s.tiers && s.tiers[r.value.users[id].tier].isDefault
          && r.value.users - {id} == s.users - {id} && r.value.tiers == s.tiers && r.value.issued == s.issued + {id})
  }

  lemma CreateUserMeans(s: Store, id: Id, username: string, password: string, role: Role)
    ensures UserCreated(s, id, username, password, role, CreateUser(s, id, username, password, role))
  {
    UserNamedMeans(s, username);
    if t :| t in s.tiers && s.tiers[t].isDefault {
      assert t in Defaults(s.tiers);
    }
  }

  /** The fields of an updated user, one by one. */
  predicate UserFields(before: User, u: UserUpdates, after: User) {
    && after.username == before.username
    && after.password == (if u.password.Some? then u.password.value else before.password)
    && after.role == (if u.role.Some? then u.role.value else before.role)
    && after.enabled == (if u.enabled.Some? then u.enabled.value else before.enabled)
    && after.tier == (if u.tier.Some? then u.tier.value else before.tier)
    && (after.version == before.version
        <==> after.role == before.role && after.enabled == before.enabled && u.password.None? && !u.revoke)
    && before.version <= after.version <= before.version + 1
  }

  ghost predicate EnabledAdmin(s: Store, id: Id) {
    id in s.users && s.users[id].role == Admin && s.users[id].enabled
  }

  ghost predicate OnlyEnabledAdmin(s: Store, id: Id) {
    EnabledAdmin(s, id) && forall x :: x != id ==> !EnabledAdmin(s, x)
  }

  ghost predicate GoodUpdate(s: Store, id: Id, u: UserUpdates) {
    id in s.users && u.role != Some(OtherRole) && (u.tier.Some? ==> u.tier.value in s.tiers) && u.password != Some("")
  }

  /** An update that leaves its user an enabled administrator, if that user is one. */
  predicate StaysAdmin(before: User, u: UserUpdates) {
    (u.role.Some? ==> u.role.value == Admin) && (u.enabled.Some? ==> u.enabled.value)
  }

  ghost predicate UserUpdated(s: Store, id: Id, u: UserUpdates, r: Result<Store>) {
    && (r == Err(UserNotFound) <==> id !in s.users)
    && (r.Ok? || r == Err(LastAdmin) <==> GoodUpdate(s, id, u))
    && (r == Err(LastAdmin) <==> GoodUpdate(s, id, u) && OnlyEnabledAdmin(s, id) && !StaysAdmin(s.users[id], u))
    && (r.Ok? ==>
          && id in s.users && id in r.value.users && UserFields(s.users[id], u, r.value.users[id])
          && r.value.users - {id} == s.users - {id} && r.value.tiers == s.tiers && r.value.issued == s.issued)
  }

  lemma OnlyAdminMeans(s: Store, id: Id)
    ensures EnabledAdmins(s.users) == {id} <==> OnlyEnabledAdmin(s, id)
  {
    if EnabledAdmins(s.users) == {id} {
      assert id in EnabledAdmins(s.users);
      forall x | x != id ensures !EnabledAdmin(s, x) {
        assert x !in EnabledAdmins(s.users);
      }
    }
    if OnlyEnabledAdmin(s, id) {
      forall x ensures x in EnabledAdmins(s.users) <==> x == id {
        assert x != id ==> !EnabledAdmin(s, x);
      }
    }
  }

  lemma UpdateUserMeans(s: Store, id: Id, u: UserUpdates)
    ensures UserUpdated(s, id, u, UpdateUser(s, id, u))
  {
    if GoodUpdate(s, id, u) {
      UpdateProtectsExactly(s, id, u);
      OnlyAdminMeans(s, id);
    }
  }

  /** A new tier has the given fields, and is the only default if it is asked for or if there was none. */
  ghost predicate TierCreated(s: Store, id: Id, name: string, rpm: int, successLimit: int, isDefault: bool, r: Result<Store>) {
    && (r.Ok? <==> name != "" && rpm >= 0 && successLimit >= 0 && !TierNameTakenBut(s, name, {}))
    && (r.Ok? ==>
          && id in r.value.tiers && r.value.users == s.users && r.value.issued == s.issued
          && r.value.tiers[id] == Tier(name, rpm, successLimit, isDefault || !AnyDefault(s))
          && OthersOnly(s.tiers, r.value.tiers, id, r.value.tiers[id].isDefault))
  }

  /** Other tiers keep their fields, except that a new default takes that role from them. */
  ghost predicate OthersOnly(before: map<Id, Tier>, after: map<Id, Tier>, id: Id, takesDefault: bool) {
    && (forall t :: t != id ==> (t in after <==> t in before))
    && (forall t :: t != id && t in after ==>
          after[t] == before[t].(isDefault := before[t].isDefault && !takesDefault))
  }

  lemma CreateTierMeans(s: Store, id: Id, name: string, rpm: int, successLimit: int, isDefault: bool)
    requires id !in s.tiers
    ensures TierCreated(s, id, name, rpm, successLimit, isDefault, CreateTier(s, id, name, rpm, successLimit, isDefault))
  {
    TierNamedMeans(s, name, {});
    if AnyDefault(s) {
      var t :| t in s.tiers && s.tiers[t].isDefault;
      assert t in Defaults(s.tiers);
    } else {
      assert Defaults(s.tiers) == {};
      assert Demoted(s.tiers) == s.tiers;
    }
  }

  ghost predicate TierUpdated(s: Store, id: Id, u: TierUpdates, r: Result<Store>) {
    && (r == Err(TierNotFound) <==> id !in s.tiers)
    && (r.Ok? <==>
          && id in s.tiers && u.name != Some("") && (u.rpm.Some? ==> u.rpm.value >= 0)
          && (u.successLimit.Some? ==> u.successLimit.value >= 0)
          && !(u.isDefault == Some(false) && s.tiers[id].isDefault)
          && (u.name.Some? ==> !TierNameTakenBut(s, u.name.value, {id})))
    && (r.Ok? ==>
          && id in s.tiers && id in r.value.tiers && r.value.users == s.users && r.value.issued == s.issued
          && r.value.tiers[id].name == (if u.name.Some? then u.name.value else s.tiers[id].name)
          && r.value.tiers[id].rpm == (if u.rpm.Some? then u.rpm.value else s.tiers[id].rpm)
          && r.value.tiers[id].successLimit == (if u.successLimit.Some? then u.successLimit.value else s.tiers[id].successLimit)
          && r.value.tiers[id].isDefault == (s.tiers[id].isDefault || u.isDefault == Some(true))
          && OthersOnly(s.tiers, r.value.tiers, id, !s.tiers[id].isDefault && u.isDefault == Some(true)))
  }

  lemma UpdateTierMeans(s: Store, id: Id, u: TierUpdates)
    ensures TierUpdated(s, id, u, UpdateTier(s, id, u))
  {
    if u.name.Some? {
      TierNamedMeans(s, u.name.value, {id});
    }
  }

  /** A tier that goes away leaves its users on a default tier, and everyone else where they are. */
  ghost predicate TierDeleted(s: Store, id: Id, r: Result<Store>) {
    && (r == Err(TierNotFound) <==> id !in s.tiers)
    && (r == Err(DefaultTierProtected) <==> id in s.tiers && s.tiers[id].isDefault)
    && (r.Ok? <==> id in s.tiers && !s.tiers[id].isDefault && AnyDefault(s))
    && (r.Ok? ==>
          && r.value.tiers == s.tiers - {id} && r.value.users.Keys == s.users.Keys && r.value.issued == s.issued
          && forall u :: u in s.users ==>
               && r.value.users[u] == s.users[u].(tier := r.value.users[u].tier)
               && (s.users[u].tier != id ==> r.value.users[u].tier == s.users[u].tier)
               && (s.users[u].tier == id ==> r.value.users[u].tier in s.tiers && s.tiers[r.value.users[u].tier].isDefault))
  }

  lemma DeleteTierMeans(s: Store, id: Id)
    ensures TierDeleted(s, id, DeleteTier(s, id))
  {
    if t :| t in s.tiers && s.tiers[t].isDefault {
      assert t in Defaults(s.tiers);
    }
  }

  // ---------- the store ----------

  lemma DemotingNothing(tiers: map<Id, Tier>)
    ensures |Defaults(tiers)| == 0 ==> Demoted(tiers) == tiers
  {
    if |Defaults(tiers)| == 0 {
      forall id | id in tiers ensures !tiers[id].isDefault {
        assert id !in Defaults(tiers);
      }
    }
  }

  lemma AdminsExist(users: map<Id, User>, id: Id)
    ensures EnabledAdmins(users) != {} && EnabledAdmins(users) != {id} ==> EnabledAdmins(users - {id}) != {}
    ensures id in EnabledAdmins(users) && |EnabledAdmins(users)| <= 1 ==> EnabledAdmins(users) == {id}
  {
    assert EnabledAdmins(users - {id}) == EnabledAdmins(users) - {id};
    if id in EnabledAdmins(users) && |EnabledAdmins(users)| <= 1 {
      assert |EnabledAdmins(users) - {id}| == 0;
    }
  }

  /** With one default tier, any query for one finds it. */
  lemma DefaultIsFirst(tiers: map<Id, Tier>, t: Id)
    requires t in tiers && tiers[t].isDefault
    ensures DefaultTier(tiers).Some? && (OneDefault(tiers) ==> DefaultTier(tiers) == Some(t))
  {
    assert t in Defaults(tiers);
  }

  /** SELECT COUNT(*) of the enabled administrators, row by row. */
  method CountEnabledAdmins(users: map<Id, User>) returns (n: nat)
    ensures n == |EnabledAdmins(users)|
  {
    n := 0;
    var todo := users.Keys;
    ghost var counted: set<Id> := {};
    while todo != {}
      invariant todo <= users.Keys && n == |counted|
      invariant counted == set id | id in users && id !in todo && users[id].role.Admin? && users[id].enabled
      decreases |todo|
    {
      var id :| id in todo;
      if users[id].role.Admin? && users[id].enabled {
        n := n + 1;
        counted := counted + {id};
      }
      todo := todo - {id};
    }
    assert counted == EnabledAdmins(users);
  }

  /** The changes of one update, gathered one after another until one is refused. */
  method GatherChanges(existing: User, u: UserUpdates, tiers: map<Id, Tier>) returns (r: Result<User>)
    ensures r == if u.role == Some(OtherRole) then Err(InvalidRole)
                 else if u.tier.Some? && u.tier.value !in tiers then Err(TierNotAssignable)
                 else if u.password == Some("") then Err(BlankPassword)
                 else Ok(UpdatedUser(existing, u))
  {
    var updated := existing;
    var bump := false;
    if u.enabled.Some? && u.enabled.value != existing.enabled {
      updated := updated.(enabled := u.enabled.value);
      bump := true;
    }
    if u.role.Some? {
      if u.role.value.OtherRole? {
        return Err(InvalidRole);
      }
      if u.role.value != existing.role {
        updated := updated.(role := u.role.value);
        bump := true;
      }
    }
    if u.tier.Some? {
      if u.tier.value !in tiers {
        return Err(TierNotAssignable);
      }
      updated := updated.(tier := u.tier.value);
    }
    if u.password.Some? {
      if u.password.value == "" {
        return Err(BlankPassword);
      }
      updated := updated.(password := u.password.value);
      bump := true;
    }
    if u.revoke {
      bump := true;
    }
    if bump {
      updated := updated.(version := updated.version + 1);
    }
    return Ok(updated);
  }

  /** The two tables, changed in place; the changes of an update are gathered one after another. */
  class AccountStore {
    var store: Store

    method CreateTierRow(id: Id, name: string, rpm: int, successLimit: int, isDefault: bool) returns (r: Option<Error>)
      modifies this
      ensures r.None? <==> CreateTier(old(store), id, name, rpm, successLimit, isDefault).Ok?
      ensures store == if r.None? then CreateTier(old(store), id, name, rpm, successLimit, isDefault).value else old(store)
      ensures r.Some? ==> CreateTier(old(store), id, name, rpm, successLimit, isDefault) == Err(r.value)
      ensures id !in old(store).tiers ==> TierCreated(old(store), id, name, rpm, successLimit, isDefault, if r.None? then Ok(store) else Err(r.value))
    {
      if id !in store.tiers {
        CreateTierMeans(store, id, name, rpm, successLimit, isDefault);
      }
      if name == "" {
        return Some(BlankName);
      }
      if rpm < 0 {
        return Some(NegativeRate);
      }
      if successLimit < 0 {
        return Some(NegativeLimit);
      }
      var defaults := |Defaults(store.tiers)|;
      var becomesDefault := isDefault || defaults == 0;
      var tiers := store.tiers;
      if becomesDefault && defaults > 0 {
        tiers := Demoted(tiers);
      }
      if TierNamed(store.tiers, name, {}) {
        return Some(TierNameTaken);
      }
      DemotingNothing(store.tiers);
      store := store.(tiers := tiers[id := Tier(name, rpm, successLimit, becomesDefault)]);
      return None;
    }

    /**
     DeleteUser: refused exactly for an unknown user and for the only enabled administrator; otherwise the user and
     nothing else goes, and an enabled administrator is left if there was one.
     */
    method DeleteUserRow(id: Id) returns (r: Option<Error>)
      modifies this
      ensures r == Some(UserNotFound) <==> id !in old(store).users
      ensures r == Some(LastAdmin) <==> EnabledAdmins(old(store).users) == {id}
      ensures r == None || r == Some(UserNotFound) || r == Some(LastAdmin)
      ensures r.Some? ==> store == old(store)
      ensures r.None? ==> store == old(store).(users := old(store).users - {id})
      ensures EnabledAdmins(old(store).users) != {} ==> EnabledAdmins(store.users) != {}
      ensures DeleteUser(old(store), id) == if r.None? then Ok(store) else Err(r.value)
    {
      DeleteProtectsExactly(store, id);
      AdminsExist(store.users, id);
      if id !in store.users {
        return Some(UserNotFound);
      }
      var user := store.users[id];
      if user.role.Admin? && user.enabled {
        var enabledAdmins := CountEnabledAdmins(store.users);
        if enabledAdmins <= 1 {
          return Some(LastAdmin);
        }
      }
      store := store.(users := store.users - {id});
      return None;
    }

    /** SELECT id FROM tiers WHERE is_default = 1 LIMIT 1; any default tier may come first. */
    static method FindDefaultTier(tiers: map<Id, Tier>) returns (found: Option<Id>)
      ensures found.None? ==> forall t :: t in tiers ==> !tiers[t].isDefault
      ensures found.Some? ==> found.value in tiers && tiers[found.value].isDefault
    {
      var todo := tiers.Keys;
      while todo != {}
        invariant todo <= tiers.Keys
        invariant forall t :: t in tiers && t !in todo ==> !tiers[t].isDefault
        decreases |todo|
      {
        var t :| t in todo;
        if tiers[t].isDefault {
          return Some(t);
        }
        todo := todo - {t};
      }
      return None;
    }

    /** CreateUser, and registerUserInTransaction with the role of a member. */
    method CreateUserRow(id: Id, username: string, password: string, role: Role) returns (r: Option<Error>)
      modifies this
      ensures UserCreated(old(store), id, username, password, role, if r.None? then Ok(store) else Err(r.value))
      ensures OneDefault(old(store).tiers) ==>
                CreateUser(old(store), id, username, password, role) == if r.None? then Ok(store) else Err(r.value)
      ensures r.Some? ==> store == old(store)
    {
      if username == "" {
        return Some(BlankUsername);
      }
      if role.OtherRole? {
        return Some(InvalidRole);
      }
      var tier := FindDefaultTier(store.tiers);
      if tier.None? {
        return Some(TierNotFound);
      }
      DefaultIsFirst(store.tiers, tier.value);
      UserNamedMeans(store, username);
      if UserNamed(store.users, username) {
        return Some(UsernameTaken);
      }
      store := store.(users := store.users[id := User(username, password, role, true, tier.value, 0)], issued := store.issued + {id});
      return None;
    }

    /** UPDATE users SET tier_id, row by row. */
    static method MoveUsers(before: map<Id, User>, from: Id, to: Id) returns (users: map<Id, User>)
      ensures users == Moved(before, from, to)
    {
      users := before;
      var todo := before.Keys;
      while todo != {}
        invariant todo <= users.Keys == before.Keys
        invariant forall u :: u in users ==>
                    users[u] == if u !in todo && before[u].tier == from then before[u].(tier := to) else before[u]
        decreases |todo|
      {
        var u :| u in todo;
        if users[u].tier == from {
          users := users[u := users[u].(tier := to)];
        }
        todo := todo - {u};
      }
    }

    /** DeleteTier: UPDATE users of the tier, one row after another, then DELETE the tier. */
    method DeleteTierRow(id: Id) returns (r: Option<Error>)
      modifies this
      ensures TierDeleted(old(store), id, if r.None? then Ok(store) else Err(r.value))
      ensures OneDefault(old(store).tiers) ==> DeleteTier(old(store), id) == if r.None? then Ok(store) else Err(r.value)
      ensures r.Some? ==> store == old(store)
    {
      if id !in store.tiers {
        return Some(TierNotFound);
      }
      if store.tiers[id].isDefault {
        return Some(DefaultTierProtected);
      }
      var tier := FindDefaultTier(store.tiers);
      if tier.None? {
        return Some(DefaultTierMissing);
      }
      DefaultIsFirst(store.tiers, tier.value);
      var users := MoveUsers(store.users, id, tier.value);
      store := store.(tiers := store.tiers - {id}, users := users);
      return None;
    }

    method UpdateTierRow(id: Id, u: TierUpdates) returns (r: Option<Error>)
      modifies this
      ensures r.None? <==> UpdateTier(old(store), id, u).Ok?
      ensures store == if r.None? then UpdateTier(old(store), id, u).value else old(store)
      ensures r.Some? ==> UpdateTier(old(store), id, u) == Err(r.value)
      ensures TierUpdated(old(store), id, u, if r.None? then Ok(store) else Err(r.value))
    {
      UpdateTierMeans(store, id, u);
      if id !in store.tiers {
        return Some(TierNotFound);
      }
      var existing := store.tiers[id];
      var updated := existing;
      if u.name.Some? {
        if u.name.value == "" {
          return Some(BlankName);
        }
        updated := updated.(name := u.name.value);
      }
      if u.rpm.Some? {
        if u.rpm.value < 0 {
          return Some(NegativeRate);
        }
        updated := updated.(rpm := u.rpm.value);
      }
      if u.successLimit.Some? {
        if u.successLimit.value < 0 {
          return Some(NegativeLimit);
        }
        updated := updated.(successLimit := u.successLimit.value);
      }
      var tiers := store.tiers;
      if u.isDefault.Some? {
        if !u.isDefault.value && existing.isDefault {
          return Some(DefaultTierProtected);
        }
        if u.isDefault.value && !existing.isDefault {
          tiers := Demoted(tiers);
          updated := updated.(isDefault := true);
        }
      }
      if u.name.Some? && TierNamed(store.tiers, u.name.value, {id}) {
        return Some(TierNameTaken);
      }
      assert updated == UpdatedTier(existing, u);
      store := store.(tiers := tiers[id := updated]);
      return None;
    }

    method UpdateUserRow(id: Id, u: UserUpdates) returns (r: Option<Error>)
      modifies this
      ensures r.None? <==> UpdateUser(old(store), id, u).Ok?
      ensures store == if r.None? then UpdateUser(old(store), id, u).value else old(store)
      ensures r.Some? ==> UpdateUser(old(store), id, u) == Err(r.value)
      ensures UserUpdated(old(store), id, u, if r.None? then Ok(store) else Err(r.value))
    {
      UpdateUserMeans(store, id, u);
      if id !in store.users {
        return Some(UserNotFound);
      }
      var existing := store.users[id];
      var gathered := GatherChanges(existing, u, store.tiers);
      if gathered.Err? {
        return Some(gathered.error);
      }
      var updated := gathered.value;
      var users := store.users[id := updated];
      if existing.role.Admin? && existing.enabled && (!updated.role.Admin? || !updated.enabled) {
        var enabledAdmins := CountEnabledAdmins(users);
        if enabledAdmins < 1 {
          return Some(LastAdmin);
        }
      }
      store := store.(users := users);
      return None;
    }
  }
}
