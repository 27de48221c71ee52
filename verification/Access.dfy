/** The access handlers as they update the workspace and actor rows, tied call by call to the steps of
    module Credentials. */
module Access {
  import opened Common
  import opened Credentials

  class AccessRoutes {
    var present: bool
    var incarnation: nat
    var apiKey: Option<Key>
    var actors: map<string, Actor>  // by the unique actor name
    const open: bool  // allow_open_workspaces
    ghost var issuedKeys: set<Key>
    ghost var issuedIds: set<ActorId>

    ghost function Model(): Workspace
      reads this
    {
      Workspace(present, incarnation, apiKey, actors, issuedKeys, issuedIds)
    }

    ghost predicate Valid()
      reads this
    {
      Sound(Model())
    }

    constructor (open: bool)
      ensures Valid() && Model() == NOTHING && this.open == open
    {
      present, incarnation, apiKey, actors, this.open := false, 0, None, map[], open;
      issuedKeys, issuedIds := {}, {};
    }

    /** `_find_actor_by_key`: at most one actor has the key. */
    method FindActorByKey(key: Key) returns (name: Option<string>)
      requires Valid()
      ensures name == ByKey(actors, key)
    {
      var names := actors.Keys;
      while names != {}
        invariant names <= actors.Keys
        invariant forall n | n in actors && n !in names :: actors[n].key != Some(key)
        decreases names
      {
        var n :| n in names;
        if actors[n].key == Some(key) {
          OnlyHolder(Model(), key, n);
          return Some(n);
        }
        names := names - {n};
      }
      return None;
    }

    method ResolveCredentials(presented: Presented, now: nat) returns (who: Option<Principal>)
      requires Valid()
      ensures who == Resolve(Model(), presented, now)
    {
      if apiKey.Some? && presented.key == apiKey {
        return Some(Principal(WorkspaceKey, Some(OwnerRole), FULL_ACCESS, None));
      }
      if presented.bearer.Some? {
        if Verified(presented.bearer.value, now) {
          var claims := presented.bearer.value.claims;
          if claims.role == OwnerRole {
            return Some(Principal(WorkspaceKey, Some(OwnerRole), FULL_ACCESS, Some(claims.sub)));
          }
          if claims.sub in actors {
            var a := actors[claims.sub];
            return Some(Principal(NamedActor, Some(a.role), PermissionsFor(a), Some(claims.sub)));
          }
        }
        return None;
      }
      if presented.key.Some? {
        var name := FindActorByKey(presented.key.value);
        if name.Some? {
          var a := actors[name.value];
          return Some(Principal(NamedActor, Some(a.role), PermissionsFor(a), name));
        }
      }
      return None;
    }

    /** `resolve_principal`, which creates an open workspace on the first touch, and `require_action`. */
    method RequireAction(presented: Presented, now: nat, action: Permission) returns (access: Credentials.Access)
      requires Valid()
      modifies this`present, this`incarnation, this`apiKey, this`actors
      ensures Valid() && Model() == Touched(old(Model()), open)
      ensures access == Authorize(Model(), presented, now, open, action)
    {
      if !present && open {
        present, incarnation, apiKey, actors := true, incarnation + 1, None, map[];
      }
      if !present {
        return Denied(404);
      }
      var who := ResolveCredentials(presented, now);
      if who.None? && apiKey.None? && open {
        who := Some(ANYONE);
      }
      if who.None? {
        return Denied(if apiKey.None? || (presented.key.None? && presented.bearer.None?) then 401 else 403);
      }
      if !(Owner in who.value.permissions || action in who.value.permissions) {
        return Denied(403);
      }
      return Granted(who.value);
    }

    /** `provision_workspace`: the key is disclosed to the creator only. */
    method Provision(r: Request) returns (disclosed: Option<Key>)
      requires Valid() && r.cmd.Provision? && New(Model(), r)
      modifies this
      ensures Valid() && Model() == Step(old(Model()), r, open)
      ensures disclosed == if old(present) then None else Some(r.key)
      ensures old(present) ==> apiKey == old(apiKey) && actors == old(actors)
      ensures present && (disclosed.Some? ==> apiKey == disclosed && actors == map[])
    {
      SoundStep(Model(), r, open);
      Spend(r);
      if present {
        return None;
      }
      present, incarnation, apiKey, actors := true, incarnation + 1, Some(r.key), map[];
      return apiKey;
    }

    /** `secure_workspace`. */
    method SecureWorkspace(r: Request) returns (status: int, disclosed: Option<Key>)
      requires Valid() && r.cmd.Secure? && New(Model(), r)
      modifies this
      ensures Valid() && Model() == Step(old(Model()), r, open)
      ensures disclosed == if old(present) && old(apiKey).None? && open then Some(r.key) else None
      ensures status == if !old(present) then 404 else if old(apiKey).None? && !open then 403 else 200
      ensures apiKey == (if disclosed.Some? then disclosed else old(apiKey)) && actors == old(actors)
    {
      SoundStep(Model(), r, open);
      Spend(r);
      if !present {
        return 404, None;
      }
      if apiKey.Some? {
        return 200, None;
      }
      if !open {
        return 403, None;
      }
      apiKey := Some(r.key);
      return 200, apiKey;
    }

    /** `rotate_workspace_key`: whoever gets past the gate gets the new key. */
    method RotateKey(r: Request) returns (status: int, disclosed: Option<Key>)
      requires Valid() && r.cmd.Rotate? && New(Model(), r)
      modifies this
      ensures Valid() && Model() == Step(old(Model()), r, open)
      ensures var gate := Gate(old(Model()), r, open);
              && status == (if gate.Denied? then gate.status else 200)
              && disclosed == (if gate.Denied? then None else Some(r.key))
              && (gate.Granted? ==> apiKey == Some(r.key))
    {
      SoundStep(Model(), r, open);
      var access := Enter(r, Owner);
      if access.Denied? {
        return access.status, None;
      }
      apiKey := Some(r.key);
      return 200, apiKey;
    }

    /** `create_actor`: the gate's refusal, 409 when the name is taken, or 201 and the key. */
    method CreateActor(r: Request) returns (status: int, disclosed: Option<Key>)
      requires Valid() && r.cmd.CreateActor? && New(Model(), r)
      modifies this
      ensures Valid() && Model() == Step(old(Model()), r, open)
      ensures var gate := Gate(old(Model()), r, open);
              status == if gate.Denied? then gate.status
                        else if r.cmd.name in Touched(old(Model()), open).actors then 409 else 201
      ensures status == 201 <==> Mints(old(Model()), r, open)
      ensures disclosed == if status == 201 then Some(r.key) else None
      ensures status == 201 ==>
                && r.cmd.name in actors && actors[r.cmd.name].id == r.uuid && actors[r.cmd.name].role == r.cmd.role
                && actors[r.cmd.name].key == disclosed
                && (r.cmd.permissions.Some? ==> actors[r.cmd.name].grants == r.cmd.permissions.value)
    {
      SoundStep(Model(), r, open);
      var access := Enter(r, AdminKeys);
      if access.Denied? {
        return access.status, None;
      }
      if r.cmd.name in actors {
        return 409, None;
      }
      var grants := if r.cmd.permissions.Some? then r.cmd.permissions.value else RoleGrants(r.cmd.role);
      actors := actors[r.cmd.name := Actor(r.uuid, r.cmd.role, Some(r.key), grants)];
      return 201, Some(r.key);
    }

    /** `delete_actor`: the gate's refusal, 404 when nobody has the id, or 204 and one actor less. */
    method DeleteActor(r: Request) returns (status: int)
      requires Valid() && r.cmd.DeleteActor? && New(Model(), r)
      modifies this
      ensures Valid() && Model() == Step(old(Model()), r, open)
      ensures var gate := Gate(old(Model()), r, open);
              status == if gate.Denied? then gate.status
                  else if WithId(old(actors), r.cmd.actor) == {} then 404 else 204
      ensures status == 204 ==> exists n :: WithId(old(actors), r.cmd.actor) == {n} && actors == old(actors) - {n}
    {
      SoundStep(Model(), r, open);
      var access := Enter(r, AdminKeys);
      if access.Denied? {
        return access.status;
      }
      var names := WithId(actors, r.cmd.actor);
      if names == {} {
        NobodyDeleted(Model(), r);
        return 404;
      }
      var name :| name in names;
      OneDeleted(Model(), r, name);
      actors := actors - {name};
      return 204;
    }

    /** `login_for_token`: 404, 403 or a token of the configured lifetime. */
    method LoginForToken(key: Key, now: nat, ttl: nat) returns (status: int, token: Option<Claims>)
      requires Valid()
      ensures token == Login(Model(), key, now, ttl)
      ensures status == if !present then 404 else if token.None? then 403 else 200
    {
      if !present {
        return 404, None;
      }
      if apiKey == Some(key) {
        return 200, Some(Claims(SLUG, SLUG, OwnerRole, now + ttl));
      }
      var name := FindActorByKey(key);
      if name.None? {
        return 403, None;
      }
      return 200, Some(Claims(SLUG, name.value, actors[name.value].role, now + ttl));
    }

    ghost method Spend(r: Request)
      modifies this`issuedKeys, this`issuedIds
      ensures Model() == Spent(old(Model()), r)
    {
      issuedKeys, issuedIds := issuedKeys + {r.key}, issuedIds + {r.uuid};
    }

    /** Spend the fresh ids, touch the workspace, authorize. */
    method Enter(r: Request, action: Permission) returns (access: Credentials.Access)
      requires Valid() && New(Model(), r)
      modifies this
      ensures Model() == Touched(Spent(old(Model()), r), open)
      ensures Valid() && access == Authorize(Model(), r.presented, r.now, open, action)
      ensures access.Denied? ==> access.status == 401 || access.status == 403 || access.status == 404
      ensures access.Granted? ==> present && (old(present) ==> actors == old(actors))
    {
      SoundTouched(Model(), r, open);
      SoundTouched(Model(), r, false);
      Spend(r);
      access := RequireAction(r.presented, r.now, action);
    }
  }

  /** The names under which an actor id is registered. */
  function WithId(actors: map<string, Actor>, id: ActorId): set<string> {
    set n | n in actors && actors[n].id == id
  }

  lemma NobodyDeleted(w: Workspace, r: Request)
    requires r.cmd.DeleteActor? && WithId(w.actors, r.cmd.actor) == {}
    ensures Perform(w, r) == w
  {
    forall n | n in w.actors ensures w.actors[n].id != r.cmd.actor { assert n !in WithId(w.actors, r.cmd.actor); }
    assert Perform(w, r).actors == w.actors;
  }

  lemma OneDeleted(w: Workspace, r: Request, name: string)
    requires Sound(w) && r.cmd.DeleteActor? && name in WithId(w.actors, r.cmd.actor)
    ensures WithId(w.actors, r.cmd.actor) == {name} && Perform(w, r) == w.(actors := w.actors - {name})
  {
    assert Perform(w, r).actors == w.actors - {name};
  }

  lemma OnlyHolder(w: Workspace, key: Key, name: string)
    requires Sound(w) && name in w.actors && w.actors[name].key == Some(key)
    ensures ByKey(w.actors, key) == Some(name)
  {
  }
}
