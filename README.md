# django ERP core rules, modelled in Dafny

This project models the rule-bearing core of the django ERP project, with proofs.
The ORM tables, the signal dispatcher and the "logged-in user" cache are replaced by explicit state and parameters.

- **`notifications.dfy`** (`Notifications`): observable change tracking.
  - The post-save handler filters the pending changes down to the real ones, moves followers when subscriber fields change, and clears the pending changes.
  - It also covers the created, changed and deleted activity records, the many-to-many fan-out, and the rule that decides whether a notification is e-mailed.
- **`notification_data.dfy`** (`NotificationData`): the subscription table, keyed by (subscriber, signature slug), and the handler that copies a user's e-mail address into it.
- **`subscription_forms.dfy`** (`SubscriptionForms`): the two-checkbox subscription widget and field, and the subscription form.
  - The form builds one field per signature.
  - Its `save` reconciles the table with the submitted (subscribe, e-mail) pairs.
- **`author_permissions.dfy`** (`AuthorPermissions`): the permission store.
  - Object permissions are keyed by (codename, app label, model, object id), each with its set of users.
  - It also holds the model-level permissions, the groups, and the connected author hooks.
  - The handlers grant base permissions to authors and to users on themselves, add new users to the "users" group, and create the "view" permission of each content type.
- **`breadcrumbs.dfy`** (`Breadcrumbs`): the breadcrumb trail kept on the request, as a push/pop list of (text, link) pairs.
- **`introspection.dfy`** (`Introspection`): the `typeof` filter and the model-name filters.
- **`model_utils.dfy`** (`ModelUtils`): `get_model`, `get_fields` and `get_field_type`.
- **`strings.dfy`** (`Strings`) and **`wrappers.dfy`** (`Wrappers`): the Python string operations the rules use (`lower`, `startswith`, `replace`, `rpartition`, `join`), and `Option`/`Result`.

Code that updates state in place is written as classes with `modifies` clauses: `Request`, `PermissionStore`, `Observed`, `ActivityStream`, `SubscriptionTable` and `SubscriptionsForm`.
Their methods are proved equal to specification functions of the old state, and the lemmas state what those functions guarantee.

## Model

| member | source | states |
|---|---|---|
| `ModelUtils.GetModel` | djangoerp/core/utils/models.py:41-57 | a model class is returned as itself, an instance gives its own class and a queryset gives its model; `ValueError` is raised exactly for inputs that are none of these and not a string |
| `ModelUtils.ConcreteModel` | djangoerp/core/signals.py:35 | `_meta.concrete_model`: the end of a model's chain of proxies, itself not a proxy; a concrete model is its own |
| `ModelUtils.GetModelStable` | djangoerp/core/utils/models.py:41-51 | whatever class `get_model` returns, passed back as a class, as an instance of it or as a queryset over it, resolves to that same class |
| `ModelUtils.GetModelDotted` | djangoerp/core/utils/models.py:53-55 | "app.Model" is looked up as (app, Model), split at the last dot |
| `ModelUtils.GetModelUndotted` | djangoerp/core/utils/models.py:53-55 | a string without a dot is looked up with app label "" |
| `ModelUtils.GetFieldType` | djangoerp/core/utils/models.py:79-85 | definition; its properties are in `FieldTypeChoices` and `FieldTypeOfFieldClass` |
| `ModelUtils.FieldTypeChoices` | djangoerp/core/utils/models.py:82-85 | "_choices" is appended exactly when the field has choices; without choices, the type is the lower-cased class name shortened by five characters per "field" removed |
| `ModelUtils.FieldTypeOfFieldClass` | djangoerp/core/utils/models.py:82-85 | a `<Kind>Field` class gives the lower-cased kind, plus "_choices" iff it has choices, for every kind whose lower-cased form does not itself contain "field" (so `FloatField`, `FileField` and `FilePathField` included) |
| `ModelUtils.FromDistinctPairs` | djangoerp/core/utils/models.py:72 | an `OrderedDict` built from pairs with distinct keys keeps every pair in order |
| `ModelUtils.GetFields` | djangoerp/core/utils/models.py:60-76 | definition; its properties are in `GetFieldsOfModel`, `GetFieldsOfForm`, `GetFieldsOtherIsClass` and `GetFieldsDocumented` |
| `ModelUtils.GetFieldsOfModel` | djangoerp/core/utils/models.py:71-72 | a model gives its concrete fields followed by its many-to-many fields, keyed by name; with distinct names the size is the sum |
| `ModelUtils.GetFieldsOfForm` | djangoerp/core/utils/models.py:73-74 | a form gives its own `fields` |
| `ModelUtils.GetFieldsOtherIsClass` | djangoerp/core/utils/models.py:69-76 | as written, any other input gives the `OrderedDict` class, not an empty dictionary |
| `ModelUtils.GetFieldsDocumented` | djangoerp/core/utils/models.py:60-76 | the documented behaviour: always a dictionary, empty for other inputs, otherwise equal to the code's result |
| `Strings.RPartitionSplits` | djangoerp/core/utils/models.py:54 | `rpartition` splits at the last separator without loss; with no separator the head is empty and the tail is the whole string |
| `Strings.ReplaceRemovesCount` | djangoerp/core/utils/models.py:82 | removing a pattern shortens a string by the pattern's length once per non-overlapping occurrence |
| `Introspection.Typeof` | djangoerp/core/templatetags/introspection.py:38-44 | definition; its properties are in `TypeofClassForm` and `TypeofTypeForm` |
| `Introspection.ModelName` | djangoerp/core/templatetags/introspection.py:47-58 | definition; its properties are in `NamesEmptyOnFailure` and `NamesOfClassAndInstance` |
| `Introspection.ModelNamePlural` | djangoerp/core/templatetags/introspection.py:61-72 | definition; its properties are in `NamesEmptyOnFailure` and `NamesOfClassAndInstance` |
| `Introspection.RawModelName` | djangoerp/core/templatetags/introspection.py:75-86 | definition; its properties are in `NamesEmptyOnFailure`, `RawModelNamePlural` and `RawModelNameOfDottedString` |
| `Introspection.TypeofClassForm` | djangoerp/core/templatetags/introspection.py:43 | "<class 'x.Y'>" gives "x.Y" |
| `Introspection.TypeofTypeForm` | djangoerp/core/templatetags/introspection.py:43 | "<type 'int'>" gives "int" |
| `Introspection.NamesEmptyOnFailure` | djangoerp/core/templatetags/introspection.py:52-97 | whenever `get_model` raises, all four name filters return "" |
| `Introspection.NamesOfClassAndInstance` | djangoerp/core/templatetags/introspection.py:52-85 | a class and its instances report the same names; a proxy reports its own verbose name, not its concrete model's |
| `Introspection.RawModelNamePlural` | djangoerp/core/templatetags/introspection.py:94-97 | the raw plural is "" iff the raw name is "", and otherwise the raw name followed by "s" |
| `Introspection.RawModelNameOfDottedString` | djangoerp/core/templatetags/introspection.py:80-85 | "app.Model" gives the lower-cased class name of the registered model, and the same name plus "s" for the plural |
| `Breadcrumbs.Href` | djangoerp/core/templatetags/breadcrumbs.py:38-40 | an empty or missing URL is kept, a URL starting with '/' is kept verbatim, anything else is reversed as a view name |
| `Breadcrumbs.HrefStable` | djangoerp/core/templatetags/breadcrumbs.py:38-40 | when reversal yields absolute paths, resolving a link again changes nothing |
| `Breadcrumbs.Pushed` | djangoerp/core/templatetags/breadcrumbs.py:37-43 | definition; its properties are in `PushAppendsOne` and `PopUndoesPush` |
| `Breadcrumbs.Popped` | djangoerp/core/templatetags/breadcrumbs.py:54-55 | definition; its properties are in `PopKeepsPrefix` and `PopUndoesPush` |
| `Breadcrumbs.PushAppendsOne` | djangoerp/core/templatetags/breadcrumbs.py:37-43 | a non-empty crumb appends exactly one (text, link) entry after the unchanged earlier entries, creating the list when it is missing |
| `Breadcrumbs.PopUndoesPush` | djangoerp/core/templatetags/breadcrumbs.py:43-55 | adding a crumb and then removing the last one gives back the previous list |
| `Breadcrumbs.PopKeepsPrefix` | djangoerp/core/templatetags/breadcrumbs.py:54-55 | removing shortens a non-empty list by one and keeps its prefix; an empty list stays empty |
| `Breadcrumbs.Request.AddCrumb` | djangoerp/core/templatetags/breadcrumbs.py:28-44 | the trail becomes the pushed trail; a falsy crumb changes nothing |
| `Breadcrumbs.Request.RemoveLastCrumb` | djangoerp/core/templatetags/breadcrumbs.py:47-56 | raises iff the list was never created; otherwise the list becomes the popped list |
| `Breadcrumbs.Request.RenderBreadcrumbs` | djangoerp/core/templatetags/breadcrumbs.py:59-70 | returns the stored list unchanged, or `None` when none was created |
| `Breadcrumbs.RenderTwoCrumbs` | djangoerp/core/tests/test_templatetags.py:324-335 | adding "Home" at "/" and "Private zone" at a view name renders both crumbs in order, the second with its reversed link |
| `AuthorPermissions.GrantBaseExact` | djangoerp/core/signals.py:40-46 | a grant adds exactly the view, change and delete keys of the object, each listing the grantee; no other key or user changes |
| `AuthorPermissions.GrantBaseIdempotent` | djangoerp/core/signals.py:40-46 | repeating a grant leaves one record per key with the user listed once |
| `AuthorPermissions.FirstAuthorOnly` | djangoerp/core/signals.py:33-46 | creation by an authenticated user grants that user, and no one else, the three permissions; a later save by another user grants nothing; with no user or the anonymous user nothing is granted |
| `AuthorPermissions.ViewPermissionEnsured` | djangoerp/core/signals.py:93-98 | a content type ends with exactly one "view_<model>" permission named "Can view <name>", unless a differently named one exists, which raises; saving again changes nothing |
| `AuthorPermissions.UserControlsItself` | djangoerp/core/signals.py:77-86 | with the setting "app.Model", every saved user holds view, change and delete on itself |
| `AuthorPermissions.PermissionStore.GetOrCreateObjectPermission` | djangoerp/core/signals.py:40-42 | a missing permission is created with no users; an existing one is reused |
| `AuthorPermissions.PermissionStore.AddUser` | djangoerp/core/signals.py:44-46 | adds the user to one permission's users |
| `AuthorPermissions.PermissionStore.GrantBasePermissions` | djangoerp/core/signals.py:40-46 | the store becomes the three-permission grant of the old store |
| `AuthorPermissions.PermissionStore.UpdateAuthorPermissions` | djangoerp/core/signals.py:30-46 | grants only on creation and only to a present, authenticated user, under the concrete model's content type |
| `AuthorPermissions.PermissionStore.ManageAuthorPermissions` | djangoerp/core/signals.py:48-70 | resolves the class, then connects or disconnects the hook under "update_<lower-cased name>_permissions"; a failed resolution changes nothing |
| `AuthorPermissions.PermissionStore.PostSave` | djangoerp/core/signals.py:30-46 | author grants apply to a model only while its hook is connected |
| `AuthorPermissions.PermissionStore.UserPostSave` | djangoerp/core/signals.py:72-91 | every save grants the user the three permissions on itself; only a new user joins the get-or-created "users" group |
| `AuthorPermissions.PermissionStore.AddViewPermission` | djangoerp/core/signals.py:93-98 | the model-level permissions follow the get-or-create on (content type, codename, name) |
| `NotificationData.SubscriberEmailCopied` | djangoerp/notifications/signals.py:87-92 | only the user's rows get the new address; flags, other users' rows and the set of rows are kept; repeating changes nothing |
| `NotificationData.SubscriptionTable.UpdateUserSubscriptionEmail` | djangoerp/notifications/signals.py:87-92 | the table becomes the table with the user's address copied into the user's rows |
| `Notifications.RealChangesExact` | djangoerp/notifications/signals.py:60-63 | the reported changes are exactly the pending entries whose new value differs from the old |
| `Notifications.FollowersBounded` | djangoerp/notifications/signals.py:64-66 | followers only lose old values and only gain new values of real subscriber-field changes |
| `Notifications.FollowersUntouched` | djangoerp/notifications/signals.py:64-66 | changes to non-subscriber fields leave the followers alone |
| `Notifications.LastSubscriberChangeWins` | djangoerp/notifications/signals.py:64-66 | after a subscriber-field change, its new value follows and its old value does not |
| `Notifications.SubscriberValuesExact` | djangoerp/notifications/signals.py:54-57 | on creation a value is added exactly when a subscriber field the instance has holds it |
| `Notifications.Observed.NotifyChanges` | djangoerp/notifications/signals.py:45-69 | on creation the instance and its subscriber values become followers; on update the followers are moved, the pending changes are cleared, and the real changes are posted iff there are any |
| `Notifications.Observed.CacheFollowers` | djangoerp/notifications/signals.py:36-43 | an observable instance caches its current followers |
| `Notifications.AuthorContext` | djangoerp/notifications/signals.py:108-113 | "author" and "author_link" are in the context iff an acting user is present, and nothing else changes |
| `Notifications.CreatedActivity` | djangoerp/notifications/signals.py:96-122 | definition; its properties are in `ActivityContents` and `SignaturesDistinct` |
| `Notifications.ChangedActivity` | djangoerp/notifications/signals.py:124-150 | definition; its properties are in `ActivityContents` and `SignaturesDistinct` |
| `Notifications.DeletedActivity` | djangoerp/notifications/signals.py:152-175 | definition; its properties are in `ActivityContents` and `SignaturesDistinct` |
| `Notifications.ActivityContents` | djangoerp/notifications/signals.py:96-175 | the records carry the lower-cased class, the name and (except on deletion) link and backlink; the changed record carries the changes; the deleted record has neither link nor backlink |
| `Notifications.SignaturesDistinct` | djangoerp/notifications/signals.py:117-171 | the created, changed and deleted signatures of a class differ, and each is the lower-cased class name plus its suffix |
| `Notifications.AuthoredTitle` | djangoerp/notifications/signals.py:101-109 | with an acting user the title is the plain title followed by " by %(author)s" |
| `Notifications.ActivityStream.NotifyObjectCreated` | djangoerp/notifications/signals.py:96-122 | a created record is appended only when `created` is true; a missing `created` raises |
| `Notifications.ActivityStream.NotifyObjectChanged` | djangoerp/notifications/signals.py:124-150 | appends one changed record |
| `Notifications.ActivityStream.NotifyObjectDeleted` | djangoerp/notifications/signals.py:152-175 | appends one deleted record |
| `Notifications.Fanout` | djangoerp/notifications/signals.py:180-190 | definition; its properties are in `FanoutAllPresent`, `FanoutStopsAtMissing`, `FanoutStaysStopped` and `RemovalIgnoresCreated` |
| `Notifications.RemovalIgnoresCreated` | djangoerp/notifications/signals.py:185-187 | the "post_remove" loop never calls the created notifier, so its records do not depend on the `created` argument |
| `Notifications.M2MAsWritten` | djangoerp/notifications/signals.py:177-190 | as written, "post_add" never yields a record, and every other action, "post_remove" included, yields exactly the intended handler's records |
| `Notifications.M2MActivities` | djangoerp/notifications/signals.py:177-190 | at most one record per id; actions other than "post_add" and "post_remove" yield nothing |
| `Notifications.M2MAddAsWrittenIsSilent` | djangoerp/notifications/signals.py:181-183 | one added, existing row gives no record as written and one created record as intended |
| `Notifications.FanoutAllPresent` | djangoerp/notifications/signals.py:181-187 | with every id present, one created (or deleted) record per id, in order |
| `Notifications.FanoutStopsAtMissing` | djangoerp/notifications/signals.py:180-190 | a missing id ends the fan-out, keeping the records already made |
| `Notifications.FanoutStaysStopped` | djangoerp/notifications/signals.py:180-190 | once stopped, later ids change nothing |
| `Notifications.M2MOtherAction` | djangoerp/notifications/signals.py:181-190 | other actions yield nothing, both as written and as intended |
| `Notifications.ActivityStream.NotifyM2MChangedWith` | djangoerp/notifications/signals.py:177-190 | for a given `created` argument of the created notifier, the log gains exactly the fan-out's records: the loop ends at a missing id or when the notifier raises, and the exception is swallowed |
| `Notifications.ActivityStream.NotifyM2MChanged` | djangoerp/notifications/signals.py:177-190 | as written (no `created` passed at line 183): "post_add" leaves the log unchanged, and for any other action the log gains exactly `M2MActivities`' records, so "post_remove" adds one deleted record per id until an id is missing |
| `Notifications.ActivityStream.NotifyM2MChangedIntended` | djangoerp/notifications/signals.py:177-190 | the intended (corrected) behaviour: the log gains `M2MActivities`' records, one created record per added id and one deleted record per removed id, until an id is missing |
| `Notifications.NotificationEmail` | djangoerp/notifications/signals.py:71-85 | an e-mail is sent iff the notification was just created, has a target, and the target's subscription to its signature wants e-mail and has an address; it has exactly that one recipient and the default sender |
| `SubscriptionForms.Decompress` | djangoerp/notifications/forms.py:35-38 | definition; its properties are in `DecompressShape` and `CompressAfterDecompress` |
| `SubscriptionForms.Compress` | djangoerp/notifications/forms.py:56-59 | definition; its properties are in `CompressAfterDecompress` |
| `SubscriptionForms.FormatOutput` | djangoerp/notifications/forms.py:40-41 | definition; its properties are in `FormatOutputIsCells` |
| `SubscriptionForms.FieldsFor` | djangoerp/notifications/forms.py:64-74 | definition; its properties are in `FieldsForExact` |
| `SubscriptionForms.SaveStep` | djangoerp/notifications/forms.py:79-89 | definition; its properties are in `SaveRowsReconciled`, `SaveFieldsReconciled` and `SaveStopsAtUnknownSlug` |
| `SubscriptionForms.SaveAll` | djangoerp/notifications/forms.py:76-89 | definition; its properties are in `SaveReconciles`, `SaveStaysStopped` and `SaveStopsAtUnknownSlug` |
| `SubscriptionForms.DecompressShape` | djangoerp/notifications/forms.py:35-38 | a list or tuple gives its first two elements, as the same kind; anything else gives `(False, False)`; decompressing again changes nothing |
| `SubscriptionForms.CompressAfterDecompress` | djangoerp/notifications/forms.py:56-59 | compress gives the first two items as a pair, or `None` below two; it round-trips through decompress |
| `SubscriptionForms.FormatOutputIsCells` | djangoerp/notifications/forms.py:40-41 | each rendered widget becomes its own `<td>` cell, the cells separated by newlines; no widget gives one empty cell |
| `SubscriptionForms.FieldsForExact` | djangoerp/notifications/forms.py:64-74 | one field per signature slug, skipping other entries, each with the caller's initial value or the subscription state |
| `SubscriptionForms.SaveRowsReconciled` | djangoerp/notifications/forms.py:76-89 | on clean data: subscribe leaves the row (subscriber e-mail, flag); unsubscribe leaves no row; rows of other subscribers or unsubmitted slugs are untouched |
| `SubscriptionForms.SaveFieldsReconciled` | djangoerp/notifications/forms.py:79-89 | on clean data: a field is reset to (False, False), keeping its title, exactly when its slug was unsubscribed while a row existed; every other field is unchanged, so unsubscribing without a subscription changes nothing |
| `SubscriptionForms.SaveReconciles` | djangoerp/notifications/forms.py:76-89 | both sides together: `save` succeeds on clean data, the table holds what was submitted and nothing else changes, and only fields whose subscription was removed are reset |
| `SubscriptionForms.SaveStaysStopped` | djangoerp/notifications/forms.py:79-89 | after an exception no later entry is applied |
| `SubscriptionForms.SaveStopsAtUnknownSlug` | djangoerp/notifications/forms.py:79-80 | an unknown slug raises, keeping what the earlier entries did |
| `SubscriptionForms.SubscriptionsForm.constructor` | djangoerp/notifications/forms.py:64-74 | the fields are the ones `FieldsFor` describes |
| `SubscriptionForms.SubscriptionsForm.Save` | djangoerp/notifications/forms.py:76-89 | the table, the fields and the error are those of `SaveAll` on the old state |

## Left out

- Lower-casing (`Strings.Lower`) covers ASCII letters only; Python's `str.lower` also folds non-ASCII letters.
- Dictionaries whose order matters are modelled as sequences of pairs: the pending changes, the cleaned form data and `OrderedDict`. `pk_set` is modelled as a sequence in iteration order.
- `add_followers` and `remove_followers` are defined in djangoerp/notifications/models.py, which is not part of this model. Adding a follower is taken to be set union with the value, and removing one to be set difference.
- The logged-in-user cache, and the concurrency around it, are not modelled: the acting user is an explicit parameter.
- The notifiers take the acting user as a user with a URL. The anonymous user, which has no `get_absolute_url`, is not modelled there.
- These are parameters or opaque values:
  - URL reversal;
  - `get_absolute_url` and the text form of objects;
  - the text of `type(value)`;
  - `DEFAULT_FROM_EMAIL` and `AUTH_USER_MODEL`;
  - the content type lookup. A proxy model, through any chain of proxies, resolves to its concrete model, whose name is lower-cased.
- Translation and `json.dumps` are not modelled: titles are kept as untranslated message ids and contexts as maps.
- `EmailMessage.send` is not modelled: the rule returns the message that would be sent.
- The ORM is reduced to maps:
  - Subscriptions are unique per (subscriber, signature), so `MultipleObjectsReturned` is not modelled.
  - Signature lookup by slug is membership in a set of known slugs.
  - `has_perm` and the permission backend are not part of this model.
- The form's `full_clean` is not modelled, and neither is the case where a caller's initial value lacks a key: the model starts from the cleaned data and from initial (subscribe, e-mail) pairs. Field labels are the signature titles, untranslated.
- `make_observable`, `make_default_notifier`, `make_notification_target` and the signal connections made at import time add base classes at run time. They are not modelled; `Observed.observable` records whether a class received the Observable mix-in.
- The widget's checkbox rendering is not modelled.
- `ModelUtils.GetFieldsOfModel` is stated only for models whose field names are distinct. With repeated names, the model's `FromPairs` keeps the first position and the last field, as `OrderedDict` does, but no lemma states that case.
- `SubscriptionForms.SaveReconciles`, `SubscriptionForms.SaveRowsReconciled` and `SubscriptionForms.SaveFieldsReconciled` are stated for clean data: distinct slugs, pairs only, known signatures and existing fields. The other cases follow `SaveStep`, and `SaveStopsAtUnknownSlug` states the unknown-slug one.
- `AuthorPermissions.PermissionStore.AddViewPermission` relies on (content type, codename) being unique among permissions. `Permission` is djangoerp's own model in djangoerp/core/models.py, with its own manager; that file is not part of this model, so the uniqueness is assumed of it. The model-level permissions are a map keyed by (content type, codename), so it holds by construction.
- `Notifications.Observed.NotifyChanges` does not require the pending changes to name distinct fields. In the source they are a dictionary keyed by field name, so each field occurs once; the model accepts any sequence and processes repeated fields in order.
- `ModelUtils.FieldTypeOfFieldClass` is not stated for kinds that themselves contain "field" once lower-cased. `GetFieldType` still removes every occurrence for those, as the source does.
- `ModelUtils.GetModelDotted`: Django's `apps.get_model(app_label, model_name)` matches the model name case-insensitively. The registry here is an exact map, so the model does not capture that "auth.user" and "auth.User" resolve alike.

## Findings

| source | as written | input that shows it | evidently intended | confidence | as-written member | corrected member |
|---|---|---|---|---|---|---|
| djangoerp/notifications/signals.py:183 | "post_add" calls `notify_object_created` without `created`. Line 99 then reads `kwargs['created']`, which raises `KeyError`, and the bare `except` at line 189 swallows it, so no created record is ever made | action "post_add", `pk_set` = {1}, row 1 exists | one created record per added row, as "post_remove" makes one deleted record per removed row | high; not executed | `Notifications.M2MAddAsWrittenIsSilent` | `Notifications.M2MActivities` |
| djangoerp/core/utils/models.py:69 | `field_list = OrderedDict` binds the class itself, so an input that is neither a model nor a form returns the class | `get_fields(None)` | an empty dictionary, as the docstring at line 63 says | high; not executed | `ModelUtils.GetFieldsOtherIsClass` | `ModelUtils.GetFieldsDocumented` |
