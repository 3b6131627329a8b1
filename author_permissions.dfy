/**
 * Author and self permission granting (djangoerp/core/signals.py).
 *
 * The ORM tables these handlers touch are fields of `PermissionStore`:
 * object permissions keyed by their natural key (codename, app label, model,
 * object id) with the set of users holding each, model-level permissions keyed
 * by (content type, codename), group membership by group name, and the
 * post-save hooks that `manage_author_permissions` connects. The acting user
 * that the logged-in-user cache would supply is an explicit argument.
 */
module AuthorPermissions {
  import opened Wrappers
  import opened Strings
  import opened ModelUtils

  /** Primary key of a user or of any other row. */
  type Pk = nat

  /** The user held by the logged-in-user cache: a real user or the anonymous one. */
  datatype Principal = Authenticated(pk: Pk) | Anonymous

  /** The natural key of an object permission. */
  datatype PermKey = PermKey(codename: string, appLabel: string, model: string, objectId: Pk)

  /** Object permissions: each natural key with the users it is granted to. */
  type ObjectPerms = map<PermKey, set<Pk>>

  /** A content type row: app label, model name and human-readable name. */
  datatype ContentType = ContentType(appLabel: string, model: string, name: string)

  /** The unique key of a model-level permission: its content type and codename. */
  datatype PermissionKey = PermissionKey(appLabel: string, model: string, codename: string)

  /** The three base permissions on one object. */
  function BaseKeys(appLabel: string, model: string, pk: Pk): set<PermKey> {
    {PermKey("view_" + model, appLabel, model, pk),
     PermKey("change_" + model, appLabel, model, pk),
     PermKey("delete_" + model, appLabel, model, pk)}
  }

  /** `get_or_create_by_natural_key(key)`: a missing permission is created with no users. */
  function Ensured(perms: ObjectPerms, key: PermKey): ObjectPerms {
    if key in perms then perms else perms[key := {}]
  }

  /** `permission.users.add(user)` on an existing permission. */
  function Added(perms: ObjectPerms, key: PermKey, user: Pk): ObjectPerms
    requires key in perms
  {
    perms[key := perms[key] + {user}]
  }

  /**
   * View, change and delete on one object granted to one user: the three
   * permissions are fetched or created first, then the user is added to each.
   */
  function GrantBase(perms: ObjectPerms, appLabel: string, model: string, pk: Pk, user: Pk): ObjectPerms {
    var view := PermKey("view_" + model, appLabel, model, pk);
    var change := PermKey("change_" + model, appLabel, model, pk);
    var delete := PermKey("delete_" + model, appLabel, model, pk);
    var fetched := Ensured(Ensured(Ensured(perms, view), change), delete);
    Added(Added(Added(fetched, view, user), change, user), delete, user)
  }

  /** Whether `user` holds the object permission `key`. */
  predicate HasObjectPermission(perms: ObjectPerms, user: Pk, key: PermKey) {
    key in perms && user in perms[key]
  }

  /**
   * A grant adds exactly the three base keys of the object, each listing the
   * grantee; every other key and every other user is left as it was.
   */
  lemma GrantBaseExact(perms: ObjectPerms, appLabel: string, model: string, pk: Pk, user: Pk, key: PermKey, v: Pk)
    ensures var after := GrantBase(perms, appLabel, model, pk, user);
      && (key in after <==> key in perms || key in BaseKeys(appLabel, model, pk))
      && (HasObjectPermission(after, v, key) <==>
            HasObjectPermission(perms, v, key) || (key in BaseKeys(appLabel, model, pk) && v == user))
  {
  }

  /** Granting twice is granting once: one record per key, the user listed once. */
  lemma GrantBaseIdempotent(perms: ObjectPerms, appLabel: string, model: string, pk: Pk, user: Pk)
    ensures var once := GrantBase(perms, appLabel, model, pk, user);
      GrantBase(once, appLabel, model, pk, user) == once
  {
    var once := GrantBase(perms, appLabel, model, pk, user);
    var twice := GrantBase(once, appLabel, model, pk, user);
    forall key | key in twice
      ensures key in once && twice[key] == once[key]
    {
      forall v | true
        ensures v in twice[key] <==> v in once[key]
      {
        GrantBaseExact(once, appLabel, model, pk, user, key, v);
        GrantBaseExact(perms, appLabel, model, pk, user, key, v);
      }
    }
    assert twice.Keys == once.Keys;
  }

  /**
   * The content type of a model: a proxy model, at any depth, shares the
   * content type of its concrete model, whose name is lower-cased for the
   * content type.
   */
  function ContentTypeOf(cls: ModelClass): (string, string) {
    var concrete := ConcreteModel(cls);
    (concrete.appLabel, Lower(concrete.name))
  }

  /** What `_update_author_permissions` does to the object permissions. */
  function AuthorSaveEffect(perms: ObjectPerms, sender: ModelClass, pk: Pk, created: bool,
                            author: Option<Principal>): ObjectPerms
  {
    if created && author.Some? && author.value.Authenticated? then
      var (appLabel, model) := ContentTypeOf(sender);
      GrantBase(perms, appLabel, model, pk, author.value.pk)
    else perms
  }

  /**
   * Only the first author is granted anything. On a new object whose base
   * permissions did not exist yet, creation by an authenticated user gives
   * that user, and no one else, the three base permissions; a later save by
   * a different acting user grants nothing. Without an acting user, or with
   * the anonymous one, creation grants nothing either.
   */
  lemma FirstAuthorOnly(perms: ObjectPerms, sender: ModelClass, pk: Pk, author: Pk, editor: Pk)
    requires forall key :: key in BaseKeys(ContentTypeOf(sender).0, ContentTypeOf(sender).1, pk) ==> key !in perms
    ensures var created := AuthorSaveEffect(perms, sender, pk, true, Some(Authenticated(author)));
      && AuthorSaveEffect(created, sender, pk, false, Some(Authenticated(editor))) == created
      && (forall key :: key in BaseKeys(ContentTypeOf(sender).0, ContentTypeOf(sender).1, pk) ==>
            key in created && created[key] == {author})
    ensures AuthorSaveEffect(perms, sender, pk, true, None) == perms
    ensures AuthorSaveEffect(perms, sender, pk, true, Some(Anonymous)) == perms
  {
    var (appLabel, model) := ContentTypeOf(sender);
    var created := AuthorSaveEffect(perms, sender, pk, true, Some(Authenticated(author)));
    forall key | key in BaseKeys(appLabel, model, pk)
      ensures key in created && created[key] == {author}
    {
      forall v | true
        ensures v in created[key] <==> v == author
      {
        GrantBaseExact(perms, appLabel, model, pk, author, key, v);
      }
    }
  }

  /** The dispatch uid `manage_author_permissions` connects a model under. */
  function AuthorHookUid(cls: ModelClass): string {
    "update_" + Lower(cls.name) + "_permissions"
  }

  /** `Group.objects.get_or_create(name=name)` followed by adding `user` to it. */
  function JoinedGroup(groups: map<string, set<Pk>>, name: string, user: Pk): map<string, set<Pk>> {
    groups[name := (if name in groups then groups[name] else {}) + {user}]
  }

  /**
   * What `add_view_permission` does to the model-level permissions, and
   * whether it raises: `get_or_create` looks a row up by content type,
   * codename AND name; when none matches it creates one, which the uniqueness
   * of (content type, codename) rejects if a row with another name exists.
   */
  function ViewPermissionEffect(permissions: map<PermissionKey, string>, ct: ContentType)
    : (map<PermissionKey, string>, bool)
  {
    var key := PermissionKey(ct.appLabel, ct.model, "view_" + ct.model);
    var name := "Can view " + ct.name;
    if key !in permissions then (permissions[key := name], false)
    else (permissions, permissions[key] != name)
  }

  /**
   * Unless a conflicting row exists, saving a content type leaves exactly one
   * "view_<model>" permission for it, named "Can view <name>"; saving it again
   * changes nothing and raises nothing.
   */
  lemma ViewPermissionEnsured(permissions: map<PermissionKey, string>, ct: ContentType)
    ensures var key := PermissionKey(ct.appLabel, ct.model, "view_" + ct.model);
      var (after, raised) := ViewPermissionEffect(permissions, ct);
      && (raised <==> key in permissions && permissions[key] != "Can view " + ct.name)
      && (!raised ==> key in after && after[key] == "Can view " + ct.name
                      && after.Keys == permissions.Keys + {key}
                      && ViewPermissionEffect(after, ct) == (after, false))
      && (raised ==> after == permissions)
  {
  }

  class PermissionStore {
    /** Object permissions with their users. */
    var objectPerms: ObjectPerms
    /** Model-level permissions and their names. */
    var permissions: map<PermissionKey, string>
    /** Group membership. */
    var groups: map<string, set<Pk>>
    /** Connected author-permission hooks: (dispatch uid, sender model). */
    var authorHooks: set<(string, ModelClass)>

    constructor ()
      ensures objectPerms == map[] && permissions == map[] && groups == map[] && authorHooks == {}
    {
      objectPerms, permissions, groups, authorHooks := map[], map[], map[], {};
    }

    /** `ObjectPermission.objects.get_or_create_by_natural_key(...)`. */
    method GetOrCreateObjectPermission(key: PermKey)
      modifies this`objectPerms
      ensures key in objectPerms
      ensures objectPerms == if key in old(objectPerms) then old(objectPerms) else old(objectPerms)[key := {}]
    {
      if key !in objectPerms {
        objectPerms := objectPerms[key := {}];
      }
    }

    /** `permission.users.add(user)`. */
    method AddUser(key: PermKey, user: Pk)
      requires key in objectPerms
      modifies this`objectPerms
      ensures objectPerms == old(objectPerms)[key := old(objectPerms)[key] + {user}]
    {
      objectPerms := objectPerms[key := objectPerms[key] + {user}];
    }

    /** Get-or-creates the three base permissions of an object, then adds `user` to each. */
    method GrantBasePermissions(appLabel: string, model: string, pk: Pk, user: Pk)
      modifies this`objectPerms
      ensures objectPerms == GrantBase(old(objectPerms), appLabel, model, pk, user)
    {
      var view := PermKey("view_" + model, appLabel, model, pk);
      var change := PermKey("change_" + model, appLabel, model, pk);
      var delete := PermKey("delete_" + model, appLabel, model, pk);
      GetOrCreateObjectPermission(view);
      GetOrCreateObjectPermission(change);
      GetOrCreateObjectPermission(delete);
      AddUser(view, user);
      AddUser(change, user);
      AddUser(delete, user);
    }

    /**
     * `_update_author_permissions`: on creation only, and only for a present
     * and authenticated acting user, the author gets the base permissions.
     */
    method UpdateAuthorPermissions(sender: ModelClass, pk: Pk, created: bool, author: Option<Principal>)
      modifies this`objectPerms
      ensures objectPerms == AuthorSaveEffect(old(objectPerms), sender, pk, created, author)
    {
      if author.Some? && author.value.Authenticated? {
        var (appLabel, model) := ContentTypeOf(sender);
        if created {
          GrantBasePermissions(appLabel, model, pk, author.value.pk);
        }
      }
    }

    /**
     * `manage_author_permissions(cls, enabled)`: resolves the class, then
     * connects or disconnects the author hook under its dispatch uid.
     */
    method ManageAuthorPermissions(cls: PyObject, registry: Registry, enabled: bool)
      returns (r: Result<ModelClass, Error>)
      modifies this`authorHooks
      ensures r == GetModel(cls, registry)
      ensures r.Failure? ==> authorHooks == old(authorHooks)
      ensures r.Success? && enabled ==> authorHooks == old(authorHooks) + {(AuthorHookUid(r.value), r.value)}
      ensures r.Success? && !enabled ==> authorHooks == old(authorHooks) - {(AuthorHookUid(r.value), r.value)}
    {
      r := GetModel(cls, registry);
      if r.Success? {
        var hook := (AuthorHookUid(r.value), r.value);
        if enabled {
          authorHooks := authorHooks + {hook};
        } else {
          authorHooks := authorHooks - {hook};
        }
      }
    }

    /** The post-save dispatch for a model: the author hook runs only while connected. */
    method PostSave(sender: ModelClass, pk: Pk, created: bool, author: Option<Principal>)
      modifies this`objectPerms
      ensures objectPerms == if (AuthorHookUid(sender), sender) in authorHooks
                             then AuthorSaveEffect(old(objectPerms), sender, pk, created, author)
                             else old(objectPerms)
    {
      if (AuthorHookUid(sender), sender) in authorHooks {
        UpdateAuthorPermissions(sender, pk, created, author);
      }
    }

    /**
     * `user_post_save`: every save of a user gives it the base permissions on
     * itself, under the app label and lower-cased model name of the
     * AUTH_USER_MODEL setting; a new user also joins the "users" group.
     */
    method UserPostSave(authUserModel: string, user: Pk, created: bool)
      modifies this`objectPerms, this`groups
      ensures var (authApp, _, userModelName) := RPartition(authUserModel, '.');
        objectPerms == GrantBase(old(objectPerms), authApp, Lower(userModelName), user, user)
      ensures groups == if created then JoinedGroup(old(groups), "users", user) else old(groups)
    {
      var (authApp, _, userModelName) := RPartition(authUserModel, '.');
      GrantBasePermissions(authApp, Lower(userModelName), user, user);
      if created {
        if "users" !in groups {
          groups := groups["users" := {}];
        }
        groups := groups["users" := groups["users"] + {user}];
      }
    }

    /** `add_view_permission`: `raised` reports the integrity error of a conflicting row. */
    method AddViewPermission(ct: ContentType) returns (raised: bool)
      modifies this`permissions
      ensures (permissions, raised) == ViewPermissionEffect(old(permissions), ct)
    {
      var key := PermissionKey(ct.appLabel, ct.model, "view_" + ct.model);
      var name := "Can view " + ct.name;
      if key in permissions {
        raised := permissions[key] != name;
      } else {
        permissions := permissions[key := name];
        raised := false;
      }
    }
  }

  /**
   * Every user has full control over itself: with the usual "app.Model"
   * setting, the user holds view, change and delete on its own primary key
   * under the lower-cased model name, whatever it held before.
   */
  lemma UserControlsItself(perms: ObjectPerms, authApp: string, userModel: string, user: Pk)
    requires '.' !in userModel
    ensures var (app, _, name) := RPartition(authApp + "." + userModel, '.');
      var after := GrantBase(perms, app, Lower(name), user, user);
      && app == authApp && name == userModel
      && (forall key :: key in BaseKeys(authApp, Lower(userModel), user) ==> HasObjectPermission(after, user, key))
  {
    RPartitionOfJoined(authApp, '.', userModel);
    var after := GrantBase(perms, authApp, Lower(userModel), user, user);
    forall key | key in BaseKeys(authApp, Lower(userModel), user)
      ensures HasObjectPermission(after, user, key)
    {
      GrantBaseExact(perms, authApp, Lower(userModel), user, user, key, user);
    }
  }
}
