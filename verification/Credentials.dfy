/** Workspace keys, actors and tokens: who a request is, and what it may do. Keys are fresh when
    generated and digests are injective, so a digest is modelled by the key itself. */
module Credentials {
  import opened Common

  type Key = nat
  type ActorId = nat

  datatype Role = Reader | Writer | OwnerRole

  datatype Permission = Read | WriteTasks | WriteDecisions | WriteHandoffs | PresenceBeat | AdminKeys | Owner

  function RoleGrants(role: Role): set<Permission> {
    match role
    case Reader => {Read}
    case Writer => {Read, WriteTasks, WriteDecisions, WriteHandoffs, PresenceBeat}
    case OwnerRole => {}
  }

  /** An actor without a key came in through OAuth. */
  datatype Actor = Actor(id: ActorId, role: Role, key: Option<Key>, grants: set<Permission>)

  /** The workspace behind one slug; `incarnation` counts the workspaces the slug has had. */
  datatype Workspace = Workspace(
    exists_: bool, incarnation: nat, apiKey: Option<Key>, actors: map<string, Actor>,
    issuedKeys: set<Key>, issuedIds: set<ActorId>)

  const SLUG := "workspace"
  const NOTHING := Workspace(false, 0, None, map[], {}, {})

  datatype Claims = Claims(workspace: string, sub: string, role: Role, expires: nat)

  /** A bearer token either carries the server's signature or is worth nothing. */
  datatype Bearer = Unsigned | Signed(claims: Claims)

  datatype Presented = Presented(key: Option<Key>, bearer: Option<Bearer>)

  datatype Kind = WorkspaceKey | NamedActor | OpenAccess

  datatype Principal = Principal(kind: Kind, role: Option<Role>, permissions: set<Permission>,
      actorName: Option<string>)

  predicate Has(p: Principal, wanted: Permission) { Owner in p.permissions || wanted in p.permissions }

  function PermissionsFor(a: Actor): set<Permission> {
    if a.role == OwnerRole then {Owner} else RoleGrants(a.role) + a.grants
  }

  function AsActor(w: Workspace, name: string): Principal
    requires name in w.actors
  {
    Principal(NamedActor, Some(w.actors[name].role), PermissionsFor(w.actors[name]), Some(name))
  }

  /** `_find_actor_by_key`. */
  ghost function ByKey(actors: map<string, Actor>, key: Key): Option<string> {
    if n :| n in actors && actors[n].key == Some(key) then Some(n) else None
  }

  const FULL_ACCESS := {Owner}

  predicate Verified(b: Bearer, now: nat) {
    b.Signed? && now < b.claims.expires && b.claims.workspace == SLUG
  }

  /** `resolve_credentials`. */
  ghost function Resolve(w: Workspace, p: Presented, now: nat): Option<Principal> {
    if w.apiKey.Some? && p.key == w.apiKey then Some(Principal(WorkspaceKey, Some(OwnerRole), FULL_ACCESS, None))
    else if p.bearer.Some? then
      if !Verified(p.bearer.value, now) then None
      else
        var c := p.bearer.value.claims;
        if c.role == OwnerRole then Some(Principal(WorkspaceKey, Some(OwnerRole), FULL_ACCESS, Some(c.sub)))
        else if c.sub in w.actors then Some(AsActor(w, c.sub)) else None
    else if p.key.Some? && ByKey(w.actors, p.key.value).Some? then Some(AsActor(w, ByKey(w.actors, p.key.value).value))
    else None
  }

  /** A new workspace behind the slug. */
  function Created(w: Workspace, apiKey: Option<Key>): Workspace {
    w.(exists_ := true, incarnation := w.incarnation + 1, apiKey := apiKey, actors := map[])
  }

  /** `_resolve_workspace`: with open workspaces allowed, the first touch creates a keyless one. */
  function Touched(w: Workspace, open: bool): Workspace {
    if w.exists_ || !open then w else Created(w, None)
  }

  datatype Access = Granted(principal: Principal) | Denied(status: int)

  const ANYONE := Principal(OpenAccess, None, FULL_ACCESS, None)

  /** `resolve_principal`, on the workspace the request touches. */
  ghost function Authenticate(w: Workspace, p: Presented, now: nat, open: bool): Access {
    if !w.exists_ then Denied(404)
    else
      var who := Resolve(w, p, now);
      if who.Some? then Granted(who.value)
      else if w.apiKey.None? then if open then Granted(ANYONE) else Denied(401)
      else if p.key.None? && p.bearer.None? then Denied(401)
      else Denied(403)
  }

  /** `resolve_ws_principal`; None closes the socket. */
  ghost function AuthenticateSocket(w: Workspace, p: Presented, now: nat, open: bool): Option<Principal> {
    if !w.exists_ then None
    else if Resolve(w, p, now).Some? then Resolve(w, p, now)
    else if open && w.apiKey.None? && p.key.None? && p.bearer.None? then Some(ANYONE)
    else None
  }

  /** `require_action`. */
  ghost function Authorize(w: Workspace, p: Presented, now: nat, open: bool, action: Permission): Access {
    var who := Authenticate(w, p, now, open);
    if who.Granted? && !Has(who.principal, action) then Denied(403) else who
  }

  ghost predicate May(w: Workspace, p: Presented, now: nat, open: bool, action: Permission) {
    Authorize(w, p, now, open, action).Granted?
  }

  datatype Command =
    | Provision
    | Secure
    | Rotate
    | CreateActor(name: string, role: Role, permissions: Option<set<Permission>>)
    | DeleteActor(actor: ActorId)
    | DeleteWorkspace
    | Join(newName: string)
    | Visit

  /** One call: its credentials, the time, and the key and uuid generated should it need them. */
  datatype Request = Request(cmd: Command, presented: Presented, now: nat, key: Key, uuid: ActorId)

  function NewActor(r: Request): Actor
    requires r.cmd.CreateActor?
  {
    Actor(r.uuid, r.cmd.role, Some(r.key),
          if r.cmd.permissions.Some? then r.cmd.permissions.value else RoleGrants(r.cmd.role))
  }

  /** The workspace after an authorized call. */
  function Perform(w: Workspace, r: Request): Workspace {
    match r.cmd
    case Rotate => w.(apiKey := Some(r.key))
    case CreateActor(name, _, _) => if name in w.actors then w else w.(actors := w.actors[name := NewActor(r)])
    case DeleteActor(id) => w.(actors := map n | n in w.actors && w.actors[n].id != id :: w.actors[n])
    case DeleteWorkspace => w.(exists_ := false, apiKey := None, actors := map[])
    case _ => w
  }

  /** What an authenticated call needs. */
  function Needs(c: Command): Permission {
    match c
    case Rotate => Owner
    case DeleteWorkspace => Owner
    case CreateActor(_, _, _) => AdminKeys
    case DeleteActor(_) => AdminKeys
    case _ => Read
  }

  /** The key and uuid generated for a call are used up, whatever becomes of it. */
  function Spent(w: Workspace, r: Request): Workspace {
    w.(issuedKeys := w.issuedKeys + {r.key}, issuedIds := w.issuedIds + {r.uuid})
  }

  /** Whether the call gets past `require_action`, and the status that refuses it otherwise. */
  ghost function Gate(w: Workspace, r: Request, open: bool): Access {
    Authorize(Touched(Spent(w, r), open), r.presented, r.now, open, Needs(r.cmd))
  }

  /** One call. Provisioning, claiming and joining by OAuth are open to everyone. */
  ghost function Step(w: Workspace, r: Request, open: bool): Workspace {
    var w0 := Spent(w, r);
    match r.cmd
    case Provision => if w0.exists_ then w0 else Created(w0, Some(r.key))
    case Secure => if w0.exists_ && w0.apiKey.None? && open then w0.(apiKey := Some(r.key)) else w0
    case Join(name) =>
      var there := Touched(w0, true);
      if name in there.actors then there else there.(actors := there.actors[name := Actor(r.uuid, Writer, None, {})])
    case _ =>
      var there := Touched(w0, open);
      if May(there, r.presented, r.now, open, Needs(r.cmd)) then Perform(there, r) else there
  }

  ghost function Play(w: Workspace, rs: seq<Request>, open: bool): Workspace
    decreases |rs|
  {
    if rs == [] then w else Play(Step(w, rs[0], open), rs[1..], open)
  }

  predicate New(w: Workspace, r: Request) { r.key !in w.issuedKeys && r.uuid !in w.issuedIds }

  ghost predicate AllNew(w: Workspace, rs: seq<Request>, open: bool)
    decreases |rs|
  {
    rs == [] || (New(w, rs[0]) && AllNew(Step(w, rs[0], open), rs[1..], open))
  }

  // -------------------------------------------------------------------------
  // Invariant
  // -------------------------------------------------------------------------

  ghost predicate Booked(w: Workspace, a: Actor) {
    a.id in w.issuedIds && (a.key.Some? ==> a.key.value in w.issuedKeys && a.key != w.apiKey)
  }

  ghost predicate Sound(w: Workspace) {
    && (!w.exists_ ==> w.apiKey.None? && w.actors == map[])
    && (w.apiKey.Some? ==> w.apiKey.value in w.issuedKeys)
    && (forall n | n in w.actors :: Booked(w, w.actors[n]))
    && (forall n, m | n in w.actors && m in w.actors && n != m ::
          && w.actors[n].id != w.actors[m].id
          && (w.actors[n].key.Some? ==> w.actors[n].key != w.actors[m].key))
  }

  lemma SoundPerform(w: Workspace, r: Request)
    requires Sound(w) && w.exists_ && r.key in w.issuedKeys && r.uuid in w.issuedIds && w.apiKey != Some(r.key)
    requires forall n | n in w.actors :: w.actors[n].key != Some(r.key) && w.actors[n].id != r.uuid
    ensures Sound(Perform(w, r))
  {
  }

  /** Spending a fresh key and uuid, and creating the workspace if need be. */
  lemma SoundTouched(w: Workspace, r: Request, open: bool)
    requires Sound(w) && New(w, r)
    ensures var w' := Touched(Spent(w, r), open);
            && Sound(w') && w'.apiKey != Some(r.key)
            && forall n | n in w'.actors :: w'.actors[n].key != Some(r.key) && w'.actors[n].id != r.uuid
  {
  }

  lemma SoundStep(w: Workspace, r: Request, open: bool)
    requires Sound(w) && New(w, r)
    ensures Sound(Step(w, r, open))
  {
    SoundTouched(w, r, open);
    SoundTouched(w, r, true);
    SoundTouched(w, r, false);
    if !r.cmd.Provision? && !r.cmd.Secure? && !r.cmd.Join? {
      var there := Touched(Spent(w, r), open);
      if May(there, r.presented, r.now, open, Needs(r.cmd)) {
        SoundPerform(there, r);
      }
    }
  }

  lemma {:induction false} SoundPlay(w: Workspace, rs: seq<Request>, open: bool)
    requires Sound(w) && AllNew(w, rs, open)
    ensures Sound(Play(w, rs, open))
    decreases |rs|
  {
    hide Sound, Step, New;
    if rs != [] {
      SoundStep(w, rs[0], open);
      SoundPlay(Step(w, rs[0], open), rs[1..], open);
    }
  }

  // -------------------------------------------------------------------------
  // Keys and tokens over runs
  // -------------------------------------------------------------------------

  /** The key was issued to the actor with this id and to nobody else, the id to this name, role and grants. */
  ghost predicate Held(w: Workspace, key: Key, id: ActorId, name: string, role: Role, grants: set<Permission>) {
    && key in w.issuedKeys && id in w.issuedIds && w.apiKey != Some(key)
    && (forall n | n in w.actors :: w.actors[n].key == Some(key) <==> w.actors[n].id == id)
    && (forall n | n in w.actors && w.actors[n].id == id ::
        n == name && w.actors[n].role == role && w.actors[n].grants == grants)
  }

  lemma HeldTouched(w: Workspace, r: Request, open: bool, key: Key, id: ActorId, name: string, role: Role,
      grants: set<Permission>)
    requires New(w, r) && Held(w, key, id, name, role, grants)
    ensures r.key != key && r.uuid != id
    ensures Held(Touched(Spent(w, r), open),
                 key, id, name, role, grants)
  {
  }

  lemma HeldPerform(w: Workspace, r: Request, key: Key, id: ActorId, name: string, role: Role, grants: set<Permission>)
    requires r.key != key && r.uuid != id && Held(w, key, id, name, role, grants)
    ensures Held(Perform(w, r), key, id, name, role, grants)
  {
  }

  lemma HeldStep(w: Workspace, r: Request, open: bool, key: Key, id: ActorId, name: string, role: Role,
      grants: set<Permission>)
    requires New(w, r) && Held(w, key, id, name, role, grants)
    ensures Held(Step(w, r, open), key, id, name, role, grants)
  {
    HeldTouched(w, r, open, key, id, name, role, grants);
    HeldTouched(w, r, true, key, id, name, role, grants);
    HeldTouched(w, r, false, key, id, name, role, grants);
    if !r.cmd.Provision? && !r.cmd.Secure? && !r.cmd.Join? {
      var there := Touched(Spent(w, r), open);
      if May(there, r.presented, r.now, open, Needs(r.cmd)) {
        HeldPerform(there, r, key, id, name, role, grants);
      }
    }
  }

  lemma {:induction false} HeldPlay(w: Workspace, rs: seq<Request>, open: bool,
                                    key: Key, id: ActorId, name: string, role: Role, grants: set<Permission>)
    requires AllNew(w, rs, open) && Held(w, key, id, name, role, grants)
    ensures Held(Play(w, rs, open), key, id, name, role, grants)
    decreases |rs|
  {
    hide Held, Step, New;
    if rs != [] {
      HeldStep(w, rs[0], open, key, id, name, role, grants);
      HeldPlay(Step(w, rs[0], open), rs[1..], open, key, id, name, role, grants);
    }
  }

  /** `login_for_token`; `ttl` is the configured token lifetime in seconds. */
  ghost function Login(w: Workspace, apiKey: Key, now: nat, ttl: nat): Option<Claims> {
    if !w.exists_ then None
    else if w.apiKey == Some(apiKey) then Some(Claims(SLUG, SLUG, OwnerRole, now + ttl))
    else if ByKey(w.actors, apiKey).None? then None
    else
      var name := ByKey(w.actors, apiKey).value;
      Some(Claims(SLUG, name, w.actors[name].role, now + ttl))
  }

  /** The call that mints the actor of `r`. */
  ghost predicate Mints(w: Workspace, r: Request, open: bool) {
    && Sound(w) && New(w, r) && r.cmd.CreateActor?
    && var there := Touched(Spent(w, r), open);
       May(there, r.presented, r.now, open, AdminKeys) && r.cmd.name !in there.actors
  }

  lemma MintHolds(w: Workspace, r: Request, open: bool)
    requires Mints(w, r, open)
    ensures Held(Step(w, r, open), r.key, r.uuid, r.cmd.name, r.cmd.role, NewActor(r).grants)
    ensures Alive(Step(w, r, open), r.cmd.name, r.uuid) && Sound(Step(w, r, open))
  {
    SoundTouched(w, r, open);
    SoundStep(w, r, open);
  }

  predicate Alive(w: Workspace, name: string, id: ActorId) { name in w.actors && w.actors[name].id == id }

  lemma KeyFinds(w: Workspace, key: Key, id: ActorId, name: string, role: Role, grants: set<Permission>)
    requires Held(w, key, id, name, role, grants)
    ensures ByKey(w.actors, key) == if Alive(w, name, id) then Some(name) else None
  {
    if n :| n in w.actors && w.actors[n].key == Some(key) {
      assert n == name;
    }
  }

  /** Key and token over runs: for an actor minted with a role other than owner, a token its key was
      exchanged for authenticates, until it expires after whatever lifetime is configured, as exactly
      the principal of the key, with the permissions it was minted with. Once the actor is revoked the
      key authenticates nothing; the token does if and only if the name was given to a new actor, and
      then it is that actor. An expired token authenticates nothing. */
  lemma KeyTokenEquivalence(w: Workspace, r: Request, open: bool, before: seq<Request>,
                            at: nat, ttl: nat, after: seq<Request>, now: nat)
    requires Mints(w, r, open) && r.cmd.role != OwnerRole && AllNew(Step(w, r, open), before + after, open)
    requires var mid := Play(Step(w, r, open), before, open); Login(mid, r.key, at, ttl).Some?
    ensures var mid := Play(Step(w, r, open), before, open); var end := Play(mid, after, open);
            var byKey := Resolve(end, Presented(Some(r.key), None), now);
            var byToken := Resolve(end, Presented(None, Some(Signed(Login(mid, r.key, at, ttl).value))), now);
            && (Alive(end, r.cmd.name, r.uuid) ==>
                  && byKey.Some? && byKey.value.actorName == Some(r.cmd.name)
                  && byKey.value.permissions == RoleGrants(r.cmd.role) + NewActor(r).grants
                  && (now < at + ttl ==> byToken == byKey))
            && (!Alive(end, r.cmd.name, r.uuid) ==> byKey == None)
            && (now < at + ttl ==>
                  byToken == if r.cmd.name in end.actors then Some(AsActor(end, r.cmd.name)) else None)
            && (now >= at + ttl ==> byToken == None)
  {
    assert r.cmd.CreateActor?;
    hide Mints, Step, Held, AllNew, New;
    MintHolds(w, r, open);
    var w1 := Step(w, r, open);
    PlaySplit(w1, before, after, open);
    var grants := NewActor(r).grants;
    HeldPlay(w1, before, open, r.key, r.uuid, r.cmd.name, r.cmd.role, grants);
    var mid := Play(w1, before, open);
    HeldPlay(mid, after, open, r.key, r.uuid, r.cmd.name, r.cmd.role, grants);
    KeyFinds(mid, r.key, r.uuid, r.cmd.name, r.cmd.role, grants);
    KeyFinds(Play(mid, after, open), r.key, r.uuid, r.cmd.name, r.cmd.role, grants);
    HolderIs(mid, r.key, r.uuid, r.cmd.name, r.cmd.role, grants);
    HolderIs(Play(mid, after, open), r.key, r.uuid, r.cmd.name, r.cmd.role, grants);
  }

  lemma HolderIs(w: Workspace, key: Key, id: ActorId, name: string, role: Role, grants: set<Permission>)
    requires Held(w, key, id, name, role, grants)
    ensures w.apiKey != Some(key)
    ensures Alive(w, name, id) ==> w.actors[name].role == role && w.actors[name].grants == grants
  {
  }

  lemma {:induction false} PlaySplit(w: Workspace, a: seq<Request>, b: seq<Request>, open: bool)
    ensures Play(w, a + b, open) == Play(Play(w, a, open), b, open)
    ensures AllNew(w, a + b, open) <==> AllNew(w, a, open) && AllNew(Play(w, a, open), b, open)
    decreases |a|
  {
    hide Step, New;
    if a == [] {
      assert a + b == b;
    } else {
      assert (a + b)[0] == a[0] && (a + b)[1..] == a[1..] + b;
      PlaySplit(Step(w, a[0], open), a[1..], b, open);
    }
  }

  // -------------------------------------------------------------------------
  // Dead keys stay dead, keyed workspaces stay keyed
  // -------------------------------------------------------------------------

  /** A key that was issued and now opens nothing. */
  ghost predicate Dead(w: Workspace, key: Key) {
    key in w.issuedKeys && w.apiKey != Some(key) && forall n | n in w.actors :: w.actors[n].key != Some(key)
  }

  lemma DeadStep(w: Workspace, r: Request, open: bool, key: Key)
    requires New(w, r) && Dead(w, key)
    ensures Dead(Step(w, r, open), key)
  {
  }

  lemma {:induction false} DeadPlay(w: Workspace, rs: seq<Request>, open: bool, key: Key)
    requires AllNew(w, rs, open) && Dead(w, key)
    ensures Dead(Play(w, rs, open), key)
    decreases |rs|
  {
    hide Dead, Step, New;
    if rs != [] {
      DeadStep(w, rs[0], open, key);
      DeadPlay(Step(w, rs[0], open), rs[1..], open, key);
    }
  }

  lemma DeadResolves(w: Workspace, key: Key, now: nat)
    requires Dead(w, key)
    ensures Resolve(w, Presented(Some(key), None), now) == None
  {
  }

  /** A workspace key that was rotated away, and the key of an actor that was revoked, never
      authenticate again, in any later state of this or a re-created workspace. */
  lemma RevokedForGood(w: Workspace, r: Request, rs: seq<Request>, open: bool, key: Key, now: nat)
    requires Sound(w) && New(w, r) && AllNew(Step(w, r, open), rs, open)
    requires w.exists_ && May(w, r.presented, r.now, open, Needs(r.cmd))
    requires || (r.cmd.Rotate? && w.apiKey == Some(key))
             || (r.cmd.DeleteActor? && exists n ::
                 n in w.actors && w.actors[n].id == r.cmd.actor && w.actors[n].key == Some(key))
             || (r.cmd.DeleteWorkspace?
                 && (w.apiKey == Some(key) || exists n :: n in w.actors && w.actors[n].key == Some(key)))
    ensures Resolve(Play(Step(w, r, open), rs, open), Presented(Some(key), None), now) == None
  {
    SpentMay(w, r, open);
    assert Dead(Step(w, r, open), key);
    DeadPlay(Step(w, r, open), rs, open, key);
    DeadResolves(Play(Step(w, r, open), rs, open), key, now);
  }

  /** Spending fresh ids does not change who a request is. */
  lemma SpentMay(w: Workspace, r: Request, open: bool)
    requires May(w, r.presented, r.now, open, Needs(r.cmd))
    ensures var w0 := Spent(w, r);
            May(w0, r.presented, r.now, open, Needs(r.cmd))
  {
  }

  /** The incarnation numbered `n` has a key as long as it lasts. */
  predicate KeyedUntilDeleted(w: Workspace, n: nat) {
    w.incarnation > n || (w.incarnation == n && (w.exists_ ==> w.apiKey.Some?))
  }

  lemma KeyedStep(w: Workspace, r: Request, open: bool, n: nat)
    requires KeyedUntilDeleted(w, n)
    ensures KeyedUntilDeleted(Step(w, r, open), n)
  {
  }

  /** Once a workspace has a key it keeps one until it is deleted. */
  lemma {:induction false} StaysKeyed(w: Workspace, rs: seq<Request>, open: bool, n: nat)
    requires KeyedUntilDeleted(w, n)
    ensures KeyedUntilDeleted(Play(w, rs, open), n)
    decreases |rs|
  {
    hide KeyedUntilDeleted, Step;
    if rs != [] {
      KeyedStep(w, rs[0], open, n);
      StaysKeyed(Step(w, rs[0], open), rs[1..], open, n);
    }
  }

  // -------------------------------------------------------------------------
  // Precedence
  // -------------------------------------------------------------------------

  /** Unless the key is the workspace key, a presented bearer decides alone: an actor key beside it is ignored. */
  lemma BearerDecides(w: Workspace, p: Presented, now: nat)
    requires p.bearer.Some? && (p.key != w.apiKey || w.apiKey.None?)
    ensures Resolve(w, p, now) == Resolve(w, p.(key := None), now)
  {
  }

  /** A keyed workspace admits nobody without credentials that authenticate, and a closed deployment nobody
      else either. */
  lemma NobodyUnauthenticated(w: Workspace, p: Presented, now: nat, open: bool)
    requires w.apiKey.Some? || !open
    ensures Authenticate(w, p, now, open).Granted? <==> w.exists_ && Resolve(w, p, now).Some?
    ensures AuthenticateSocket(w, p, now, open).Some? <==> w.exists_ && Resolve(w, p, now).Some?
  {
  }

  /** REST and the socket admit the same principals, except that on an open workspace REST ignores
      credentials that do not authenticate and the socket refuses them. */
  lemma SocketIsStricter(w: Workspace, p: Presented, now: nat, open: bool)
    ensures var rest, socket := Authenticate(w, p, now, open), AuthenticateSocket(w, p, now, open);
            && (socket.Some? ==> rest == Granted(socket.value))
            && (rest.Granted? && socket.None? <==>
                  w.exists_ && open && w.apiKey.None? && Resolve(w, p, now).None? && (p.key.Some? || p.bearer.Some?))
  {
  }

  // -------------------------------------------------------------------------
  // The exceptions at concrete inputs
  // -------------------------------------------------------------------------

  /** A wrong key on a keyless open workspace: REST lets it in as anyone, the socket refuses it. */
  lemma WrongKeyOnOpenWorkspace()
    ensures var w := Created(NOTHING, None); var p := Presented(Some(7), None);
            Authenticate(w, p, 0, true) == Granted(ANYONE) && AuthenticateSocket(w, p, 0, true) == None
  {
  }

  /** Nobody presents anything: enough on a keyless open workspace. */
  const NO_CREDENTIALS := Presented(None, None)

  const MINT_READER := Request(CreateActor("ada", Reader, None), NO_CREDENTIALS, 0, 1, 1)
  const REVOKE := Request(DeleteActor(1), NO_CREDENTIALS, 0, 2, 2)
  const MINT_WRITER := Request(CreateActor("ada", Writer, None), NO_CREDENTIALS, 0, 3, 3)

  lemma OpenStep(w: Workspace, r: Request)
    requires w.exists_ && w.apiKey.None? && r.presented == NO_CREDENTIALS
    requires r.cmd.CreateActor? || r.cmd.DeleteActor?
    ensures Step(w, r, true) == Perform(Spent(w, r), r)
  {
  }

  /** A reader is minted, logs in and is revoked, and the name is given to a writer: the reader's key is
      dead and the reader's token is the writer. */
  lemma TokenOfReusedName()
    ensures Mints(NOTHING, MINT_READER, true) && AllNew(NOTHING, [MINT_READER, REVOKE, MINT_WRITER], true)
    ensures var mid := Step(NOTHING, MINT_READER, true);
            var end := Play(mid, [REVOKE, MINT_WRITER], true);
            var token := Login(mid, 1, 0, 60);
            && token == Some(Claims(SLUG, "ada", Reader, 60))
            && Resolve(end, Presented(Some(1), None), 59) == None
            && "ada" in end.actors && end.actors["ada"].id == 3
            && Resolve(end, Presented(None, Some(Signed(token.value))), 59) == Some(AsActor(end, "ada"))
            && WriteTasks in AsActor(end, "ada").permissions
            && "ada" in mid.actors && WriteTasks !in AsActor(mid, "ada").permissions
  {
    var there := Touched(Spent(NOTHING, MINT_READER), true);
    assert Authorize(there, NO_CREDENTIALS, 0, true, AdminKeys) == Granted(ANYONE);
    var mid := Step(NOTHING, MINT_READER, true);
    var reader := Actor(1, Reader, Some(1), {Read});
    assert mid == there.(actors := map["ada" := reader]);
    assert "ada" in mid.actors && ByKey(mid.actors, 1) == Some("ada");
    var revoked := Step(mid, REVOKE, true);
    OpenStep(mid, REVOKE);
    assert revoked.actors == map[];
    var end := Step(revoked, MINT_WRITER, true);
    OpenStep(revoked, MINT_WRITER);
    var rest, all := [REVOKE, MINT_WRITER], [MINT_READER, REVOKE, MINT_WRITER];
    assert all[1..] == rest && rest[1..] == [MINT_WRITER] && [MINT_WRITER][1..] == [];
    assert Play(end, [], true) == end && Play(revoked, [MINT_WRITER], true) == Play(end, [], true);
    assert Play(mid, rest, true) == Play(revoked, [MINT_WRITER], true);
    assert AllNew(mid, rest, true);
  }
}
