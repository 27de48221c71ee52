/** The access rules written out case by case: which credentials authenticate, what each role may do,
    who is refused with which status, and what each administrative call changes. */
module AccessRules {
  import opened Common
  import opened Credentials

  // -------------------------------------------------------------------------
  // Who a request is
  // -------------------------------------------------------------------------

  /** A token that expired, or was signed for another workspace, or was not signed, is worth nothing. */
  lemma WorthlessTokens(w: Workspace, c: Claims, now: nat)
    ensures now >= c.expires || c.workspace != "workspace" ==> Resolve(w, Presented(None, Some(Signed(c))), now) == None
    ensures Resolve(w, Presented(None, Some(Unsigned)), now) == None
  {
  }

  /** A credential authenticates if and only if it is the workspace key, a live token of this workspace for
      an owner or for a name in use, or, without any token, the key of an actor. */
  lemma WhoAuthenticates(w: Workspace, p: Presented, now: nat)
    ensures Resolve(w, p, now).Some? <==>
            || (w.apiKey.Some? && p.key == w.apiKey)
            || (p.bearer.Some? && p.bearer.value.Signed?
                && var c := p.bearer.value.claims;
                now < c.expires && c.workspace == "workspace" && (c.role == OwnerRole || c.sub in w.actors))
            || (p.bearer.None? && p.key.Some? && exists n :: n in w.actors && w.actors[n].key == p.key)
  {
    if n :| n in w.actors && w.actors[n].key == p.key && p.key.Some? {
      assert ByKey(w.actors, p.key.value).Some?;
    }
  }

  /** The workspace key and an owner's token may do everything; any other credential is the actor it names
      or belongs to. */
  lemma WhoItIs(w: Workspace, p: Presented, now: nat)
    requires Resolve(w, p, now).Some?
    ensures var who := Resolve(w, p, now).value;
            && (w.apiKey.Some? && p.key == w.apiKey ==> who.kind == WorkspaceKey && forall a :: Has(who, a))
            && (w.apiKey.None? || p.key != w.apiKey ==>
                  if p.bearer.Some? && p.bearer.value.Signed? && p.bearer.value.claims.role == OwnerRole
                  then
                    && who.kind == WorkspaceKey && who.actorName == Some(p.bearer.value.claims.sub)
                    && forall a :: Has(who, a)
                  else
                    && who.actorName.Some? && who.actorName.value in w.actors
                    && who == AsActor(w, who.actorName.value)
                    && (if p.bearer.Some? && p.bearer.value.Signed?
                        then who.actorName == Some(p.bearer.value.claims.sub)
                        else w.actors[who.actorName.value].key == p.key))
  {
  }

  /** What an actor may do: everything for an owner, reading for everybody, the four kinds of writing for a
      writer, and whatever was granted by name. */
  lemma WhatActorsMayDo(w: Workspace, name: string, action: Permission)
    requires name in w.actors
    ensures var a := w.actors[name];
            && AsActor(w, name).kind == NamedActor && AsActor(w, name).actorName == Some(name)
            && (Has(AsActor(w, name), action) <==>
                  || a.role == OwnerRole || Owner in a.grants
                  || action in a.grants || action == Read
                  || (a.role == Writer && (action == WriteTasks || action == WriteDecisions
                                           || action == WriteHandoffs || action == PresenceBeat)))
  {
  }

  /** The statuses of a refusal, and that nobody else is refused. */
  lemma Refusals(w: Workspace, p: Presented, now: nat, open: bool, action: Permission)
    ensures var access, who := Authorize(w, p, now, open, action), Resolve(w, p, now);
            if !w.exists_ then access == Denied(404)
            else if who.Some? then access == if Has(who.value, action) then Granted(who.value) else Denied(403)
            else if w.apiKey.None? && open then access.Granted? && access.principal.kind == OpenAccess
            else if w.apiKey.None? || (p.key.None? && p.bearer.None?) then access == Denied(401)
            else access == Denied(403)
  {
  }

  // -------------------------------------------------------------------------
  // What each call changes
  // -------------------------------------------------------------------------

  /** The key, the actors and the existence of the workspace. */
  ghost predicate Same(w: Workspace, w': Workspace) {
    w'.exists_ == w.exists_ && w'.incarnation == w.incarnation && w'.apiKey == w.apiKey && w'.actors == w.actors
  }

  /** A workspace created just now. */
  ghost predicate Fresh(w: Workspace, w': Workspace, apiKey: Option<Key>) {
    w'.exists_ && w'.incarnation == w.incarnation + 1 && w'.apiKey == apiKey && w'.actors == map[]
  }

  lemma Unmoved(w: Workspace, r: Request, open: bool, action: Permission)
    ensures Authorize(Spent(w, r), r.presented, r.now, open, action) == Authorize(w, r.presented, r.now, open, action)
  {
  }

  /** Provisioning keys a new workspace and leaves an existing one alone; claiming keys an open keyless one. */
  lemma OpenCalls(w: Workspace, r: Request, open: bool)
    ensures r.cmd.Provision? ==>
              if w.exists_ then Same(w, Step(w, r, open)) else Fresh(w, Step(w, r, open), Some(r.key))
    ensures r.cmd.Secure? ==>
              if w.exists_ && w.apiKey.None? && open
              then Same(w.(apiKey := Some(r.key)), Step(w, r, open)) else Same(w, Step(w, r, open))
    ensures r.cmd.Join? ==>
              var w', name := Step(w, r, open), r.cmd.newName;
              && w'.exists_ && name in w'.actors
              && (w.exists_ && name in w.actors ==> Same(w, w'))
              && (!w.exists_ || name !in w.actors ==>
                    && w'.actors[name].role == Writer && w'.actors[name].key == None && w'.actors[name].id == r.uuid
                    && w'.actors[name].grants == {} && w'.apiKey == (if w.exists_ then w.apiKey else None)
                    && w'.actors.Keys == (if w.exists_ then w.actors.Keys else {}) + {name})
  {
  }

  /** Rotating the key and deleting the workspace take an owner, and change just that. */
  lemma OwnerCalls(w: Workspace, r: Request, open: bool)
    requires w.exists_ && (r.cmd.Rotate? || r.cmd.DeleteWorkspace?)
    ensures var w' := Step(w, r, open);
            if Authorize(w, r.presented, r.now, open, Owner).Denied? then Same(w, w')
            else if r.cmd.Rotate? then Same(w.(apiKey := Some(r.key)), w')
            else !w'.exists_ && w'.apiKey == None && w'.actors == map[]
  {
    Unmoved(w, r, open, Owner);
  }

  /** What comes with a role: reading with every role but owner, which needs no grants, and the writing
      permissions with the writer's. */
  predicate DefaultGrant(role: Role, p: Permission) {
    match p
    case Read => role == Reader || role == Writer
    case AdminKeys => false
    case Owner => false
    case _ => role == Writer
  }

  /** Minting and revoking actors take `admin_keys`; a new actor has the role, the fresh key and the grants
      asked for, or those of its role, and a taken name changes nothing. */
  lemma AdminCalls(w: Workspace, r: Request, open: bool)
    requires w.exists_ && (r.cmd.CreateActor? || r.cmd.DeleteActor?)
    ensures Authorize(w, r.presented, r.now, open, AdminKeys).Denied? ==> Same(w, Step(w, r, open))
    ensures Authorize(w, r.presented, r.now, open, AdminKeys).Granted? ==>
              var w' := Step(w, r, open);
              && w'.exists_ && w'.apiKey == w.apiKey && w'.incarnation == w.incarnation
              && (r.cmd.CreateActor? && r.cmd.name in w.actors ==> w'.actors == w.actors)
              && (r.cmd.CreateActor? && r.cmd.name !in w.actors ==>
                    && r.cmd.name in w'.actors && w'.actors.Keys == w.actors.Keys + {r.cmd.name}
                    && (forall n | n in w.actors :: w'.actors[n] == w.actors[n])
                    && var a := w'.actors[r.cmd.name];
                    && a.id == r.uuid && a.role == r.cmd.role && a.key == Some(r.key)
                    && (r.cmd.permissions.Some? ==> a.grants == r.cmd.permissions.value)
                    && (r.cmd.permissions.None? ==> forall p :: p in a.grants <==> DefaultGrant(r.cmd.role, p)))
              && (r.cmd.DeleteActor? ==>
                    && (forall n :: n in w'.actors <==> n in w.actors && w.actors[n].id != r.cmd.actor)
                    && (forall n | n in w'.actors :: w'.actors[n] == w.actors[n]))
  {
    Unmoved(w, r, open, AdminKeys);
  }

  /** Any call that only reads creates the workspace on its first touch, keyless, when that is allowed. */
  lemma FirstTouch(w: Workspace, r: Request, open: bool)
    requires r.cmd.Visit?
    ensures if w.exists_ || !open then Same(w, Step(w, r, open)) else Fresh(w, Step(w, r, open), None)
  {
  }

  /** A token carries the name and role of whoever the key belongs to, for exactly the configured time. */
  lemma LoginClaims(w: Workspace, key: Key, now: nat, ttl: nat)
    ensures Login(w, key, now, ttl).Some? <==>
              w.exists_ && (w.apiKey == Some(key) || exists n :: n in w.actors && w.actors[n].key == Some(key))
    ensures Login(w, key, now, ttl).Some? ==>
              var c := Login(w, key, now, ttl).value;
              && c.workspace == "workspace" && c.expires == now + ttl
              && (if w.apiKey == Some(key) then c.role == OwnerRole && c.sub == "workspace"
                  else c.sub in w.actors && w.actors[c.sub].key == Some(key) && w.actors[c.sub].role == c.role)
  {
    if n :| n in w.actors && w.actors[n].key == Some(key) {
      assert ByKey(w.actors, key).Some?;
    }
  }
}
