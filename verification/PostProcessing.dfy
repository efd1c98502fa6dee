// What follows the main write, as the engine sees it: the collections beside a
// representation, what their enforcers may leave of them, and when that is what
// the spec asks for.

module PostProcessing {
  import opened Wrappers
  import opened Json
  import opened Drivers
  import opened ScopeAssignments
  import RM = RoleMappings
  import RE = RoleEnforcers
  import GM = GroupMappings
  import IM = IdpMappers

  // The rest of the realm: client scopes, roles and clients.
  datatype Surroundings = Surroundings(scopes: map<string, string>, dir: RM.Directory)

  // The collections of one resource; each kind uses its own.
  datatype Side = Side(defaults: seq<string>, optionals: seq<string>, roles: RM.Store, mappers: IM.Mappers)

  const NO_SIDE := Side([], [], map[], map[])

  // What a spec asks of them.
  datatype Wish = Wish(client: ClientSpec, role: RE.RoleSpec, group: GM.GroupSpec, mappers: seq<IM.Mapper>)

  // A resource with the collections it is to have. Mappers carry the key of
  // their identity provider as alias.
  datatype Job = Job(kind: Kind, key: string, wish: Wish, around: Surroundings)

  // The order in which the server lists scopes and mappers.
  datatype Listing = Listing(scopes: seq<Scope>, mappers: seq<string>)

  // How it ended, what it left, and whether it sent any write request.
  datatype Post = Post(ok: bool, after: Side, wrote: bool)

  // Realms and client scopes keep all their state in the representation.
  predicate HasCollections(kind: Kind)
  {
    !kind.Realm? && !kind.ClientScope?
  }

  // Every collection is exactly as desired.
  ghost predicate Goal(j: Job, side: Side)
  {
    match j.kind
    case Client =>
      && AsNamed(j.around.scopes, j.wish.client.defaults, side.defaults)
      && AsNamed(j.around.scopes, j.wish.client.optionals, side.optionals)
    case RealmRole =>
      && RM.StringIds(RM.At(side.roles, RM.Composites)) == RE.CompositeIds(j.wish.role, j.around.dir)
      && !RE.Unresolved(j.wish.role, j.around.dir)
    case Group => GM.AsWanted(side.roles, j.wish.group, j.around.dir) && !GM.Unmappable(j.wish.group, j.around.dir)
    case IdentityProvider => IM.Matches(side.mappers, IM.Desired(j.wish.mappers, j.key))
    case _ => true
  }

  // The enforcers find nothing to write.
  ghost predicate Still(j: Job, l: Listing, side: Side)
  {
    match j.kind
    case Client =>
      && AsNamed(j.around.scopes, j.wish.client.defaults, side.defaults)
      && AsNamed(j.around.scopes, j.wish.client.optionals, side.optionals)
    case RealmRole => RM.StringIds(RM.At(side.roles, RM.Composites)) == RE.CompositeIds(j.wish.role, j.around.dir)
    case Group => GM.AsWanted(side.roles, j.wish.group, j.around.dir)
    case IdentityProvider =>
      && IM.Lists(l.mappers, side.mappers)
      && IM.Quiet(side.mappers, IM.Picked(side.mappers, l.mappers), IM.Desired(j.wish.mappers, j.key))
    case _ => true
  }

  // The listings are what the server holds, and clients have distinct ids.
  ghost predicate Reads(j: Job, l: Listing, side: Side)
  {
    match j.kind
    case Client => Lists(l.scopes, j.around.scopes)
    case Group => RM.Distinct(j.around.dir)
    case IdentityProvider => IM.Lists(l.mappers, side.mappers)
    case _ => true
  }

  // What the contract of each enforcer allows.
  ghost predicate Left(j: Job, l: Listing, before: Side, post: Post)
    requires Reads(j, l, before)
  {
    match j.kind
    case Client =>
      && post.after == before.(defaults := post.after.defaults, optionals := post.after.optionals)
      && Kept(j.around.scopes, j.wish.client.defaults, before.defaults, post.after.defaults)
      && Kept(j.around.scopes, j.wish.client.optionals, before.optionals, post.after.optionals)
      && (post.ok ==>
            && Enforced(j.around.scopes, l.scopes, j.wish.client.defaults, before.defaults, post.after.defaults)
            && Enforced(j.around.scopes, l.scopes, j.wish.client.optionals, before.optionals, post.after.optionals))
    case RealmRole =>
      var now := RM.At(post.after.roles, RM.Composites);
      && post.after == before.(roles := post.after.roles) && RM.OnlyIn(before.roles, post.after.roles, {RM.Composites})
      && RE.Monotone(RM.At(before.roles, RM.Composites), RE.CompositeIds(j.wish.role, j.around.dir), now)
      && (post.ok ==>
            && RM.StringIds(now) == RE.CompositeIds(j.wish.role, j.around.dir)
            && !RE.Unresolved(j.wish.role, j.around.dir))
    case Group =>
      && post.after == before.(roles := post.after.roles)
      && GM.Partial(before.roles, post.after.roles, j.wish.group, j.around.dir)
      && (post.ok ==>
            GM.Exact(before.roles, post.after.roles, j.wish.group, j.around.dir)
              && !GM.Unmappable(j.wish.group, j.around.dir))
    case IdentityProvider =>
      var pick, desired := IM.Picked(before.mappers, l.mappers), IM.Desired(j.wish.mappers, j.key);
      && post.after == before.(mappers := post.after.mappers)
      && exists done, gone ::
           && IM.Reached(before.mappers, post.after.mappers, pick, desired, done, gone)
           && (post.ok ==> done == desired.Keys && gone == pick.Keys)
    case _ => post == Post(true, before, false)
  }

  // Everything the enforcers can do: what they leave, and that they write
  // exactly if there is something to write.
  ghost predicate Possible(j: Job, l: Listing, before: Side, post: Post)
  {
    && Reads(j, l, before) && Left(j, l, before, post)
    && (!post.wrote ==> post.after == before)
    && (Still(j, l, before) ==> !post.wrote)
    && (post.ok ==> (post.wrote <==> !Still(j, l, before)))
  }

  // ------------------------------------------------------- The enforcers

  // What the server lists, in an order of its choice.
  method TakeListing(j: Job, side: Side) returns (l: Listing)
    requires j.kind.Group? ==> RM.Distinct(j.around.dir)
    ensures Reads(j, l, side)
  {
    var scopes := ListScopes(j.around.scopes);
    var mappers := ListKeys(side.mappers.Keys);
    l := Listing(scopes, mappers);
  }

  method ListScopes(names: map<string, string>) returns (r: seq<Scope>)
    ensures Lists(r, names)
  {
    r := [];
    var todo := names.Keys;
    while todo != {}
      invariant todo <= names.Keys
      invariant forall s: Scope :: s in r <==> s.id in names && s.id !in todo && names[s.id] == s.name
      decreases todo
    {
      var id :| id in todo;
      r := r + [Scope(id, names[id])];
      todo := todo - {id};
    }
  }

  method ListKeys(keys: set<string>) returns (r: seq<string>)
    ensures forall k :: k in r <==> k in keys
  {
    r := [];
    var todo := keys;
    while todo != {}
      invariant todo <= keys
      invariant forall k :: k in r <==> k in keys && k !in todo
      decreases todo
    {
      var k :| k in todo;
      r := r + [k];
      todo := todo - {k};
    }
  }

  // Runs the enforcer of the kind against a server that holds the collections.
  // id is the server-side id of the representation, empty if it has none.
  method RunEnforcer(j: Job, l: Listing, id: string, before: Side) returns (post: Post)
    requires Reads(j, l, before)
    ensures Possible(j, l, before, post)
    ensures id == "" && (j.kind.Client? || j.kind.Group?) ==> !post.ok && !post.wrote
  {
    match j.kind
    case Client => post := RunScopes(j, l, id, before);
    case RealmRole => post := RunComposites(j, l, before);
    case Group => post := RunMappings(j, l, id, before);
    case IdentityProvider => post := RunMappers(j, l, before);
    case _ => post := Post(true, before, false);
  }

  method RunScopes(j: Job, l: Listing, id: string, before: Side) returns (post: Post)
    requires j.kind.Client? && Reads(j, l, before)
    ensures Possible(j, l, before, post)
    ensures id == "" ==> !post.ok && !post.wrote
  {
    hide Lists, Kept, Enforced, AsNamed;
    var defaults := new Assignments(j.around.scopes, before.defaults);
    var optionals := new Assignments(j.around.scopes, before.optionals);
    var changed, ok := PostApply(id, j.wish.client, defaults, optionals, l.scopes);
    post := Post(ok, before.(defaults := defaults.scopes, optionals := optionals.scopes),
      defaults.writes + optionals.writes > 0);
  }

  method RunComposites(j: Job, l: Listing, before: Side) returns (post: Post)
    requires j.kind.RealmRole?
    ensures Possible(j, l, before, post)
  {
    hide RE.Monotone, RM.OnlyIn, RM.StringIds, RM.At, RE.CompositeIds, RE.Unresolved;
    var server := new RM.RoleServer(before.roles);
    var changed, ok := RE.EnforceComposites(server, j.wish.role, j.around.dir);
    post := Post(ok, before.(roles := server.store), server.writes > 0);
  }

  method RunMappings(j: Job, l: Listing, id: string, before: Side) returns (post: Post)
    requires j.kind.Group? && Reads(j, l, before)
    ensures Possible(j, l, before, post)
    ensures id == "" ==> !post.ok && !post.wrote
  {
    hide GM.Partial, GM.Exact, GM.AsWanted, GM.Unmappable, RM.Distinct;
    var server := new RM.RoleServer(before.roles);
    var changed, ok := GM.PostApply(server, id, j.wish.group, j.around.dir);
    post := Post(ok, before.(roles := server.store), server.writes > 0);
    if ok {
      GroupReached(before.roles, server.store, j.wish.group, j.around.dir);
    }
  }

  method RunMappers(j: Job, l: Listing, before: Side) returns (post: Post)
    requires j.kind.IdentityProvider? && Reads(j, l, before)
    ensures Possible(j, l, before, post)
  {
    hide IM.Reached, IM.Quiet, IM.Picked, IM.Desired;
    var server := new IM.MapperServer(before.mappers);
    var changed, ok, done, gone := IM.PostApply(server, j.wish.mappers, j.key, l.mappers);
    post := Post(ok, before.(mappers := server.mappers), server.writes > 0);
  }

  // ------------------------------------------------------------------ Laws

  // When success is exact: no unwanted scope hides behind another of its name,
  // and no mapper behind another of its name unless it is as desired itself.
  ghost predicate Faithful(j: Job, l: Listing, before: Side)
    requires Reads(j, l, before)
  {
    match j.kind
    case Client =>
      && (j.wish.client.defaults.Some? ==>
            Resolvable(j.around.scopes, l.scopes, Elements(before.defaults), Elements(j.wish.client.defaults.value)))
      && (j.wish.client.optionals.Some? ==>
            Resolvable(j.around.scopes, l.scopes, Elements(before.optionals), Elements(j.wish.client.optionals.value)))
    case IdentityProvider =>
      IM.OthersFit(before.mappers, IM.Picked(before.mappers, l.mappers), IM.Desired(j.wish.mappers, j.key))
    case _ => true
  }

  lemma ScopesGoalIff(names: map<string, string>, listing: seq<Scope>, desired: Option<seq<string>>,
                      before: seq<string>, after: seq<string>)
    requires Lists(listing, names) && Enforced(names, listing, desired, before, after)
    ensures AsNamed(names, desired, after) <==>
            (desired.Some? ==> Resolvable(names, listing, Elements(before), Elements(desired.value)))
  {
    hide Lists, Resolvable, Target;
    if desired.Some? {
      ExactIff(names, listing, Elements(before), Elements(desired.value));
    }
  }

  lemma GroupReached(before: RM.Store, after: RM.Store, spec: GM.GroupSpec, dir: RM.Directory)
    requires GM.Exact(before, after, spec, dir)
    ensures GM.AsWanted(after, spec, dir)
  {
    hide RM.StringIds, RM.Wanted;
  }

  lemma MappersGoalIff(before: IM.Mappers, after: IM.Mappers, listing: seq<string>, list: seq<IM.Mapper>, alias: string)
    requires IM.Lists(listing, before)
    requires var pick, desired := IM.Picked(before, listing), IM.Desired(list, alias);
             IM.Reached(before, after, pick, desired, desired.Keys, pick.Keys)
    ensures IM.Matches(after, IM.Desired(list, alias)) <==>
            IM.OthersFit(before, IM.Picked(before, listing), IM.Desired(list, alias))
  {
    IM.DesiredWellNamed(list, alias);
    hide IM.Reached, IM.Desired, IM.OthersFit, IM.Matches, IM.WellNamed;
    IM.ExactIff(before, after, IM.Picked(before, listing), IM.Desired(list, alias));
  }

  // Success reaches the goal exactly if the names are not ambiguous.
  lemma SuccessIsExactIff(j: Job, l: Listing, before: Side, post: Post)
    requires Possible(j, l, before, post) && post.ok
    ensures Goal(j, post.after) <==> Faithful(j, l, before)
  {
    match j.kind
    case Client =>
      hide Resolvable, Enforced, AsNamed, Kept, Lists;
      ScopesGoalIff(j.around.scopes, l.scopes, j.wish.client.defaults, before.defaults, post.after.defaults);
      ScopesGoalIff(j.around.scopes, l.scopes, j.wish.client.optionals, before.optionals, post.after.optionals);
    case Group =>
      hide GM.Exact, GM.AsWanted, GM.Partial;
      GroupReached(before.roles, post.after.roles, j.wish.group, j.around.dir);
    case IdentityProvider =>
      hide IM.Reached, IM.Picked, IM.Desired, IM.OthersFit, IM.Matches, IM.Lists;
      MappersGoalIff(before.mappers, post.after.mappers, l.mappers, j.wish.mappers, j.key);
    case _ =>
  }

  // A collection that is as desired is left alone, whatever the listing order
  // and whatever fails.
  lemma GoalIsStill(j: Job, l: Listing, side: Side)
    requires Reads(j, l, side) && Goal(j, side)
    ensures Still(j, l, side)
  {
    hide IM.Matches, IM.Quiet, IM.Desired, GM.AsWanted, AsNamed;
    if j.kind.IdentityProvider? {
      IM.MatchesIsQuiet(side.mappers, l.mappers, IM.Desired(j.wish.mappers, j.key));
    }
  }

  // When a success leaves nothing to write for a later listing.
  ghost predicate Calm(j: Job, l: Listing, before: Side, after: Side, later: Listing)
    requires Reads(j, l, before) && Reads(j, later, after)
  {
    if j.kind.IdentityProvider?
    then IM.Undoubled(before.mappers, IM.Picked(before.mappers, l.mappers), IM.Desired(j.wish.mappers, j.key),
                      IM.Picked(after.mappers, later.mappers))
    else Faithful(j, l, before)
  }

  lemma MappersStillIff(before: IM.Mappers, after: IM.Mappers, listing: seq<string>, later: seq<string>,
                        list: seq<IM.Mapper>, alias: string)
    requires IM.Lists(listing, before) && IM.Lists(later, after)
    requires var pick, desired := IM.Picked(before, listing), IM.Desired(list, alias);
             IM.Reached(before, after, pick, desired, desired.Keys, pick.Keys)
    ensures IM.Quiet(after, IM.Picked(after, later), IM.Desired(list, alias)) <==>
            IM.Undoubled(before, IM.Picked(before, listing), IM.Desired(list, alias), IM.Picked(after, later))
  {
    IM.DesiredWellNamed(list, alias);
    hide IM.Reached, IM.Desired, IM.Undoubled, IM.WellNamed, IM.Quiet;
    IM.LaterQuietIff(before, after, IM.Picked(before, listing), IM.Desired(list, alias), later);
  }

  lemma StillAfterSuccessIff(j: Job, l: Listing, before: Side, post: Post, later: Listing)
    requires Possible(j, l, before, post) && post.ok && Reads(j, later, post.after)
    ensures Still(j, later, post.after) <==> Calm(j, l, before, post.after, later)
  {
    if j.kind.IdentityProvider? {
      hide IM.Reached, IM.Picked, IM.Desired, IM.Undoubled, IM.Quiet, IM.Lists;
      MappersStillIff(before.mappers, post.after.mappers, l.mappers, later.mappers, j.wish.mappers, j.key);
    } else {
      hide IM.Reached, IM.Desired, GM.AsWanted, AsNamed, Resolvable, Enforced, Left, GM.Unmappable, RE.Unresolved,
        RM.StringIds, Lists;
      SuccessIsExactIff(j, l, before, post);
      ResolvedOnSuccess(j, l, before, post);
    }
  }

  lemma ResolvedOnSuccess(j: Job, l: Listing, before: Side, post: Post)
    requires Possible(j, l, before, post) && post.ok
    ensures j.kind.RealmRole? ==> !RE.Unresolved(j.wish.role, j.around.dir)
    ensures j.kind.Group? ==> !GM.Unmappable(j.wish.group, j.around.dir)
  {
  }
}
