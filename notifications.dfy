/**
 * Change tracking and activity generation for observable models
 * (djangoerp/notifications/signals.py).
 *
 * An observed instance keeps its followers as a set of values, its pending
 * changes as the ordered entries `field -> (old, new)`, and a follower cache.
 * The activity log is a sequence of records. The acting user that the
 * logged-in-user cache would supply is an explicit `Option<Actor>`.
 */
module Notifications {
  import opened Wrappers
  import opened Strings
  import opened NotificationData

  /** One pending change of a field: its name, its previous and its current value. */
  datatype Change = Change(field: string, before: Value, after: Value)

  /** The pending changes whose value actually changed, in order. */
  function RealChanges(pending: seq<Change>): seq<Change>
    decreases |pending|
  {
    if pending == [] then []
    else
      var last := pending[|pending| - 1];
      RealChanges(pending[..|pending| - 1]) + (if last.after != last.before then [last] else [])
  }

  /**
   * The reported changes are exactly the pending entries whose new value
   * differs from the old one; unchanged entries are dropped.
   */
  lemma {:induction false} RealChangesExact(pending: seq<Change>)
    ensures |RealChanges(pending)| <= |pending|
    ensures forall c :: c in RealChanges(pending) <==> c in pending && c.after != c.before
    decreases |pending|
  {
    if pending != [] {
      var init := pending[..|pending| - 1];
      var last := pending[|pending| - 1];
      RealChangesExact(init);
      assert pending == init + [last];
      assert forall c :: c in pending <==> c in init || c == last;
    }
  }

  /**
   * The followers after an update-save has gone through the pending changes:
   * a real change of a subscriber field removes the old value from the
   * followers and adds the new one.
   */
  function FollowersAfter(followers: set<Value>, pending: seq<Change>, subscriberFields: seq<string>): set<Value>
    decreases |pending|
  {
    if pending == [] then followers
    else
      var earlier := FollowersAfter(followers, pending[..|pending| - 1], subscriberFields);
      var c := pending[|pending| - 1];
      if c.after != c.before && c.field in subscriberFields then (earlier - {c.before}) + {c.after}
      else earlier
  }

  /** The previous values of the real changes to subscriber fields. */
  function Departed(pending: seq<Change>, subscriberFields: seq<string>): set<Value> {
    set c | c in pending && c.after != c.before && c.field in subscriberFields :: c.before
  }

  /** The new values of the real changes to subscriber fields. */
  function Arrived(pending: seq<Change>, subscriberFields: seq<string>): set<Value> {
    set c | c in pending && c.after != c.before && c.field in subscriberFields :: c.after
  }

  /**
   * Only subscriber-field changes move followers: every follower that was not
   * the old value of such a change stays, and every follower afterwards was
   * one before or is the new value of such a change.
   */
  lemma {:induction false} FollowersBounded(followers: set<Value>, pending: seq<Change>, subscriberFields: seq<string>)
    ensures followers - Departed(pending, subscriberFields) <= FollowersAfter(followers, pending, subscriberFields)
    ensures FollowersAfter(followers, pending, subscriberFields) <= followers + Arrived(pending, subscriberFields)
    decreases |pending|
  {
    if pending != [] {
      var init := pending[..|pending| - 1];
      var c := pending[|pending| - 1];
      FollowersBounded(followers, init, subscriberFields);
      assert pending == init + [c];
      assert Departed(init, subscriberFields) <= Departed(pending, subscriberFields);
      assert Arrived(init, subscriberFields) <= Arrived(pending, subscriberFields);
      if c.after != c.before && c.field in subscriberFields {
        assert c.before in Departed(pending, subscriberFields);
        assert c.after in Arrived(pending, subscriberFields);
      }
    }
  }

  /** Changes to fields that are not subscriber fields leave the followers alone. */
  lemma {:induction false} FollowersUntouched(followers: set<Value>, pending: seq<Change>, subscriberFields: seq<string>)
    requires forall c :: c in pending ==> c.field !in subscriberFields
    ensures FollowersAfter(followers, pending, subscriberFields) == followers
    decreases |pending|
  {
    if pending != [] {
      var init := pending[..|pending| - 1];
      assert forall c :: c in init ==> c in pending;
      FollowersUntouched(followers, init, subscriberFields);
    }
  }

  /**
   * After the last real change of a subscriber field, its new value follows
   * the instance and its old value no longer does (unless they are equal).
   */
  lemma LastSubscriberChangeWins(followers: set<Value>, pending: seq<Change>, c: Change, subscriberFields: seq<string>)
    requires c.after != c.before && c.field in subscriberFields
    ensures var f := FollowersAfter(followers, pending + [c], subscriberFields);
      c.after in f && c.before !in f
  {
    assert (pending + [c])[..|pending|] == pending;
  }

  /** The current values of the subscriber fields the instance has. */
  function SubscriberValues(attributes: map<string, Value>, subscriberFields: seq<string>): set<Value>
    decreases |subscriberFields|
  {
    if subscriberFields == [] then {}
    else
      var sf := subscriberFields[|subscriberFields| - 1];
      SubscriberValues(attributes, subscriberFields[..|subscriberFields| - 1])
        + (if sf in attributes then {attributes[sf]} else {})
  }

  /** A value is added on creation exactly when some subscriber field the instance has holds it. */
  lemma {:induction false} SubscriberValuesExact(attributes: map<string, Value>, subscriberFields: seq<string>, v: Value)
    ensures v in SubscriberValues(attributes, subscriberFields) <==>
      exists i :: 0 <= i < |subscriberFields| && subscriberFields[i] in attributes && attributes[subscriberFields[i]] == v
    decreases |subscriberFields|
  {
    if subscriberFields != [] {
      var n := |subscriberFields| - 1;
      var init := subscriberFields[..n];
      SubscriberValuesExact(attributes, init, v);
      if v in SubscriberValues(attributes, init) {
        var i :| 0 <= i < |init| && init[i] in attributes && attributes[init[i]] == v;
        assert subscriberFields[i] == init[i];
      }
      if exists i :: 0 <= i < |subscriberFields| && subscriberFields[i] in attributes && attributes[subscriberFields[i]] == v {
        var i :| 0 <= i < |subscriberFields| && subscriberFields[i] in attributes && attributes[subscriberFields[i]] == v;
        if i < n {
          assert init[i] == subscriberFields[i];
        }
      }
    }
  }

  /** An instance of a model class, as the handlers see it. */
  class Observed {
    /** The instance itself, as a follower value. */
    const self: Value
    /** Whether its class has the Observable mix-in. */
    const observable: bool
    /** The configured subscriber field names. */
    const subscriberFields: seq<string>
    /** The attributes the instance has, by name. */
    const attributes: map<string, Value>
    /** The followers. */
    var followers: set<Value>
    /** The pending changes, in insertion order. */
    var changes: seq<Change>
    /** The follower list saved before deletion. */
    var followersCache: Option<set<Value>>

    constructor (self0: Value, observable0: bool, subscriberFields0: seq<string>, attributes0: map<string, Value>,
                 followers0: set<Value>, changes0: seq<Change>)
      ensures self == self0 && observable == observable0 && subscriberFields == subscriberFields0
      ensures attributes == attributes0 && followers == followers0 && changes == changes0
      ensures followersCache == None
    {
      self, observable, subscriberFields, attributes := self0, observable0, subscriberFields0, attributes0;
      followers, changes, followersCache := followers0, changes0, None;
    }

    /**
     * `_notify_changes`: on creation the instance and the subscriber-field
     * values it has become followers; on update the real changes are kept,
     * subscriber-field followers are moved, the pending changes are cleared,
     * and the real changes are posted if there are any.
     */
    method NotifyChanges(created: bool) returns (posted: Option<seq<Change>>)
      modifies this`followers, this`changes
      ensures !observable ==> followers == old(followers) && changes == old(changes) && posted == None
      ensures observable && created ==>
        && followers == old(followers) + {self} + SubscriberValues(attributes, subscriberFields)
        && changes == old(changes)
        && posted == None
      ensures observable && !created ==>
        && followers == FollowersAfter(old(followers), old(changes), subscriberFields)
        && changes == []
        && posted == (if RealChanges(old(changes)) == [] then None else Some(RealChanges(old(changes))))
    {
      posted := None;
      if !observable {
        return;
      }
      if created {
        followers := followers + {self};
        for i := 0 to |subscriberFields|
          invariant followers == old(followers) + {self} + SubscriberValues(attributes, subscriberFields[..i])
          invariant changes == old(changes)
        {
          assert subscriberFields[..i + 1][..i] == subscriberFields[..i];
          var sf := subscriberFields[i];
          if sf in attributes {
            followers := followers + {attributes[sf]};
          }
        }
        assert subscriberFields[..|subscriberFields|] == subscriberFields;
      } else {
        var pending := changes;
        var kept: seq<Change> := [];
        for i := 0 to |pending|
          invariant kept == RealChanges(pending[..i])
          invariant followers == FollowersAfter(old(followers), pending[..i], subscriberFields)
        {
          assert pending[..i + 1][..i] == pending[..i];
          var c := pending[i];
          if c.after != c.before {
            kept := kept + [c];
            if c.field in subscriberFields {
              followers := followers - {c.before};
              followers := followers + {c.after};
            }
          }
        }
        assert pending[..|pending|] == pending;
        changes := [];
        if kept != [] {
          posted := Some(kept);
        }
      }
    }

    /** `_cache_followers`: an observable instance saves its current followers. */
    method CacheFollowers()
      modifies this`followersCache
      ensures followersCache == if observable then Some(followers) else old(followersCache)
    {
      if observable {
        if followersCache.Some? {
          followersCache := None;
        }
        followersCache := Some(followers);
      }
    }
  }

  /** The acting user: its text form and its URL. */
  datatype Actor = Actor(text: string, link: string)

  /** The object an activity is about: its key, its text form and its URL. */
  datatype Target = Target(ref: Pk, text: string, link: string)

  /** A value of an activity's context. */
  datatype ContextValue = Str(s: string) | ChangeList(changes: seq<Change>)

  /** An activity record. */
  datatype Activity = Activity(
    title: string,
    signature: string,
    template: string,
    context: map<string, ContextValue>,
    backlink: Option<string>,
    source: Pk)

  /** The title of an activity: the author placeholder is there iff an author is. */
  function Title(verb: string, author: Option<Actor>): string {
    "%(class)s %(name)s " + verb + (if author.Some? then " by %(author)s" else "")
  }

  /** The context entries naming the author, when there is one. */
  function WithAuthor(context: map<string, ContextValue>, author: Option<Actor>): map<string, ContextValue> {
    match author
    case Some(a) => context["author" := Str(a.text)]["author_link" := Str(a.link)]
    case None => context
  }

  /** `notify_object_created`'s record. */
  function CreatedActivity(className: string, instance: Target, author: Option<Actor>): Activity {
    var context := map["class" := Str(Lower(className)), "name" := Str(instance.text), "link" := Str(instance.link)];
    Activity(Title("created", author), Lower(className) + "-created", "notifications/activities/object-created.html",
             WithAuthor(context, author), Some(instance.link), instance.ref)
  }

  /** `notify_object_changed`'s record. */
  function ChangedActivity(className: string, instance: Target, changes: seq<Change>, author: Option<Actor>): Activity {
    var context := map["class" := Str(Lower(className)), "name" := Str(instance.text), "link" := Str(instance.link),
                       "changes" := ChangeList(changes)];
    Activity(Title("changed", author), Lower(className) + "-changed", "notifications/activities/object-changed.html",
             WithAuthor(context, author), Some(instance.link), instance.ref)
  }

  /** `notify_object_deleted`'s record: no link and no backlink. */
  function DeletedActivity(className: string, instance: Target, author: Option<Actor>): Activity {
    var context := map["class" := Str(Lower(className)), "name" := Str(instance.text)];
    Activity(Title("deleted", author), Lower(className) + "-deleted", "notifications/activities/object-deleted.html",
             WithAuthor(context, author), None, instance.ref)
  }

  /** The author appears in the context, with its link, exactly when there is one. */
  lemma AuthorContext(context: map<string, ContextValue>, author: Option<Actor>)
    requires "author" !in context && "author_link" !in context
    ensures var r := WithAuthor(context, author);
      && ("author" in r <==> author.Some?)
      && ("author_link" in r <==> author.Some?)
      && (author.Some? ==> r["author"] == Str(author.value.text) && r["author_link"] == Str(author.value.link))
      && (forall k :: k in context ==> k in r && r[k] == context[k])
      && r.Keys == context.Keys + (if author.Some? then {"author", "author_link"} else {})
  {
  }

  /**
   * What the three records carry: the lower-cased class name, the object's
   * text, and the object's link and backlink except on deletion; the changed
   * record holds the changes.
   */
  lemma ActivityContents(className: string, instance: Target, changes: seq<Change>, author: Option<Actor>)
    ensures var c := CreatedActivity(className, instance, author);
      && c.context["class"] == Str(Lower(className)) && c.context["name"] == Str(instance.text)
      && c.context["link"] == Str(instance.link) && c.backlink == Some(instance.link) && c.source == instance.ref
      && ("author" in c.context <==> author.Some?)
    ensures var u := ChangedActivity(className, instance, changes, author);
      && u.context["class"] == Str(Lower(className)) && u.context["name"] == Str(instance.text)
      && u.context["changes"] == ChangeList(changes) && u.context["link"] == Str(instance.link)
      && u.backlink == Some(instance.link) && u.source == instance.ref
      && ("author" in u.context <==> author.Some?)
    ensures var d := DeletedActivity(className, instance, author);
      && d.context["class"] == Str(Lower(className)) && d.context["name"] == Str(instance.text)
      && "link" !in d.context && d.backlink == None && d.source == instance.ref
      && ("author" in d.context <==> author.Some?)
  {
    var base := map["class" := Str(Lower(className)), "name" := Str(instance.text)];
    AuthorContext(base, author);
    AuthorContext(base["link" := Str(instance.link)], author);
    AuthorContext(base["link" := Str(instance.link)]["changes" := ChangeList(changes)], author);
    assert map["class" := Str(Lower(className)), "name" := Str(instance.text), "link" := Str(instance.link)]
        == base["link" := Str(instance.link)];
    assert map["class" := Str(Lower(className)), "name" := Str(instance.text), "link" := Str(instance.link),
               "changes" := ChangeList(changes)]
        == base["link" := Str(instance.link)]["changes" := ChangeList(changes)];
  }

  /**
   * The three kinds of record of one class have three different signatures,
   * and a signature tells its class's lower-cased name back.
   */
  lemma {:induction false} SignaturesDistinct(className: string, instance: Target, changes: seq<Change>, author: Option<Actor>)
    ensures var c := CreatedActivity(className, instance, author).signature;
      var u := ChangedActivity(className, instance, changes, author).signature;
      var d := DeletedActivity(className, instance, author).signature;
      c != u && u != d && c != d
      && c[..|Lower(className)|] == Lower(className) && c[|Lower(className)|..] == "-created"
      && u[..|Lower(className)|] == Lower(className) && u[|Lower(className)|..] == "-changed"
      && d[..|Lower(className)|] == Lower(className) && d[|Lower(className)|..] == "-deleted"
  {
    var n := |Lower(className)|;
    var c := Lower(className) + "-created";
    var u := Lower(className) + "-changed";
    var d := Lower(className) + "-deleted";
    assert c[n + 1] == 'c' && u[n + 1] == 'c' && d[n + 1] == 'd';
    assert c[n + 2] == 'r' && u[n + 2] == 'h';
  }

  /** With an author, the title is the plain title followed by " by %(author)s". */
  lemma AuthoredTitle(verb: string, a: Actor)
    ensures Title(verb, Some(a)) == Title(verb, None) + " by %(author)s"
  {
  }

  /**
   * The records a many-to-many fan-out leaves, and whether it stopped early:
   * each id is looked up among `rows` (a missing one raises and ends the
   * fan-out); on "post_add" the created notifier reads its `created`
   * argument, which raises when it was not passed.
   */
  function Fanout(adding: bool, className: string, pks: seq<Pk>, rows: map<Pk, Target>,
                  author: Option<Actor>, createdArg: Option<bool>): (r: (seq<Activity>, bool))
    ensures |r.0| <= |pks|
    decreases |pks|
  {
    if pks == [] then ([], false)
    else
      var (acts, stopped) := Fanout(adding, className, pks[..|pks| - 1], rows, author, createdArg);
      var pk := pks[|pks| - 1];
      if stopped then (acts, true)
      else if pk !in rows then (acts, true)
      else if !adding then (acts + [DeletedActivity(className, rows[pk], author)], false)
      else if createdArg.None? then (acts, true)
      else if createdArg.value then (acts + [CreatedActivity(className, rows[pk], author)], false)
      else (acts, false)
  }

  /** `notify_m2m_changed`, given what the created notifier receives as `created`. */
  function M2MActivitiesWith(action: string, className: string, pks: seq<Pk>, rows: map<Pk, Target>,
                             author: Option<Actor>, createdArg: Option<bool>): seq<Activity>
  {
    if action == "post_add" then Fanout(true, className, pks, rows, author, createdArg).0
    else if action == "post_remove" then Fanout(false, className, pks, rows, author, createdArg).0
    else []
  }

  /**
   * The handler as written: the created notifier is called without
   * `created`, so "post_add" yields nothing, while every other action,
   * "post_remove" included, yields what the intended handler does.
   */
  function M2MAsWritten(action: string, className: string, pks: seq<Pk>, rows: map<Pk, Target>,
                        author: Option<Actor>): (r: seq<Activity>)
    ensures action == "post_add" ==> r == []
    ensures action != "post_add" ==> r == M2MActivities(action, className, pks, rows, author)
  {
    FanoutWithoutCreated(className, pks, rows, author);
    RemovalIgnoresCreated(className, pks, rows, author, None, Some(true));
    M2MActivitiesWith(action, className, pks, rows, author, None)
  }

  /** A removal fan-out never calls the created notifier, so its `created` argument does not matter. */
  lemma {:induction false} RemovalIgnoresCreated(className: string, pks: seq<Pk>, rows: map<Pk, Target>,
                                                 author: Option<Actor>, x: Option<bool>, y: Option<bool>)
    ensures Fanout(false, className, pks, rows, author, x) == Fanout(false, className, pks, rows, author, y)
    decreases |pks|
  {
    if pks != [] {
      RemovalIgnoresCreated(className, pks[..|pks| - 1], rows, author, x, y);
    }
  }

  /** The handler as intended: each added row is reported as created. */
  function M2MActivities(action: string, className: string, pks: seq<Pk>, rows: map<Pk, Target>,
                         author: Option<Actor>): (r: seq<Activity>)
    ensures |r| <= |pks|
    ensures action != "post_add" && action != "post_remove" ==> r == []
  {
    M2MActivitiesWith(action, className, pks, rows, author, Some(true))
  }

  /** Without a `created` argument an added row never yields a record. */
  lemma {:induction false} FanoutWithoutCreated(className: string, pks: seq<Pk>, rows: map<Pk, Target>, author: Option<Actor>)
    ensures Fanout(true, className, pks, rows, author, None).0 == []
    decreases |pks|
  {
    if pks != [] {
      FanoutWithoutCreated(className, pks[..|pks| - 1], rows, author);
    }
  }

  /**
   * The discrepancy: as written, "post_add" never yields a record, whatever
   * was added; one existing added row shows the intended behaviour differs.
   */
  lemma M2MAddAsWrittenIsSilent(className: string, pks: seq<Pk>, rows: map<Pk, Target>, author: Option<Actor>, t: Target)
    ensures M2MAsWritten("post_add", className, pks, rows, author) == []
    ensures M2MActivities("post_add", className, [t.ref], map[t.ref := t], author)
         == [CreatedActivity(className, t, author)]
  {
    FanoutWithoutCreated(className, pks, rows, author);
    var one := [t.ref];
    assert one[..|one| - 1] == [];
    assert Fanout(true, className, [], map[t.ref := t], author, Some(true)) == ([], false);
    assert one[|one| - 1] == t.ref && map[t.ref := t][t.ref] == t;
    assert [] + [CreatedActivity(className, t, author)] == [CreatedActivity(className, t, author)];
    assert Fanout(true, className, one, map[t.ref := t], author, Some(true))
        == ([CreatedActivity(className, t, author)], false);
  }

  /** Once the fan-out has stopped, later ids change nothing. */
  lemma {:induction false} FanoutStaysStopped(adding: bool, className: string, pks: seq<Pk>, rest: seq<Pk>,
                                              rows: map<Pk, Target>, author: Option<Actor>, createdArg: Option<bool>)
    requires Fanout(adding, className, pks, rows, author, createdArg).1
    ensures Fanout(adding, className, pks + rest, rows, author, createdArg) == Fanout(adding, className, pks, rows, author, createdArg)
    decreases |rest|
  {
    if rest == [] {
      assert pks + rest == pks;
    } else {
      var init := rest[..|rest| - 1];
      FanoutStaysStopped(adding, className, pks, init, rows, author, createdArg);
      assert (pks + rest)[..|pks + rest| - 1] == pks + init;
    }
  }

  /**
   * A missing id ends the fan-out: the records made for the ids before it are
   * kept and nothing more is made.
   */
  lemma FanoutStopsAtMissing(action: string, className: string, before: seq<Pk>, pk: Pk, rest: seq<Pk>,
                             rows: map<Pk, Target>, author: Option<Actor>)
    requires pk !in rows
    ensures M2MActivities(action, className, before + [pk] + rest, rows, author)
         == M2MActivities(action, className, before, rows, author)
  {
    if action == "post_add" || action == "post_remove" {
      var adding := action == "post_add";
      assert (before + [pk])[..|before|] == before;
      FanoutStaysStopped(adding, className, before + [pk], rest, rows, author, Some(true));
    }
  }

  /**
   * When every id exists, "post_add" yields one created record per id and
   * "post_remove" one deleted record per id, in iteration order.
   */
  lemma {:induction false} FanoutAllPresent(adding: bool, className: string, pks: seq<Pk>, rows: map<Pk, Target>,
                                            author: Option<Actor>)
    requires forall i :: 0 <= i < |pks| ==> pks[i] in rows
    ensures var (acts, stopped) := Fanout(adding, className, pks, rows, author, Some(true));
      && !stopped && |acts| == |pks|
      && forall i :: 0 <= i < |pks| ==>
           acts[i] == if adding then CreatedActivity(className, rows[pks[i]], author)
                      else DeletedActivity(className, rows[pks[i]], author)
    decreases |pks|
  {
    if pks != [] {
      var init := pks[..|pks| - 1];
      FanoutAllPresent(adding, className, init, rows, author);
    }
  }

  /** Any other action yields nothing. */
  lemma M2MOtherAction(action: string, className: string, pks: seq<Pk>, rows: map<Pk, Target>, author: Option<Actor>)
    requires action != "post_add" && action != "post_remove"
    ensures M2MActivities(action, className, pks, rows, author) == []
    ensures M2MAsWritten(action, className, pks, rows, author) == []
  {
  }

  /** The activity log. */
  class ActivityStream {
    var activities: seq<Activity>

    constructor ()
      ensures activities == []
    {
      activities := [];
    }

    /**
     * `notify_object_created`: a record only when `created` is true; reading
     * a `created` that was not passed raises, reported by `raised`.
     */
    method NotifyObjectCreated(className: string, instance: Target, created: Option<bool>, author: Option<Actor>)
      returns (raised: bool)
      modifies this
      ensures raised <==> created.None?
      ensures activities == if created == Some(true) then old(activities) + [CreatedActivity(className, instance, author)]
                            else old(activities)
    {
      if created.None? {
        return true;
      }
      raised := false;
      if created.value {
        activities := activities + [CreatedActivity(className, instance, author)];
      }
    }

    /** `notify_object_changed`: one record carrying the changes. */
    method NotifyObjectChanged(className: string, instance: Target, changes: seq<Change>, author: Option<Actor>)
      modifies this
      ensures activities == old(activities) + [ChangedActivity(className, instance, changes, author)]
    {
      activities := activities + [ChangedActivity(className, instance, changes, author)];
    }

    /** `notify_object_deleted`: one record without link or backlink. */
    method NotifyObjectDeleted(className: string, instance: Target, author: Option<Actor>)
      modifies this
      ensures activities == old(activities) + [DeletedActivity(className, instance, author)]
    {
      activities := activities + [DeletedActivity(className, instance, author)];
    }

    /**
     * The loop of `notify_m2m_changed`, given what the created notifier
     * receives as `created`: one notifier call per id until an id is missing
     * or the notifier raises; the exception ends the loop and is swallowed.
     */
    method NotifyM2MChangedWith(action: string, className: string, pks: seq<Pk>, rows: map<Pk, Target>,
                                author: Option<Actor>, createdArg: Option<bool>)
      modifies this
      ensures activities == old(activities) + M2MActivitiesWith(action, className, pks, rows, author, createdArg)
    {
      if action == "post_add" || action == "post_remove" {
        var adding := action == "post_add";
        var i, stopped := 0, false;
        assert pks[..0] == [];
        while i < |pks| && !stopped
          invariant 0 <= i <= |pks|
          invariant activities == old(activities) + Fanout(adding, className, pks[..i], rows, author, createdArg).0
          invariant stopped == Fanout(adding, className, pks[..i], rows, author, createdArg).1
        {
          assert pks[..i + 1][..i] == pks[..i];
          var pk := pks[i];
          if pk !in rows {
            stopped := true;
          } else if adding {
            stopped := NotifyObjectCreated(className, rows[pk], createdArg, author);
          } else {
            NotifyObjectDeleted(className, rows[pk], author);
          }
          i := i + 1;
        }
        if stopped {
          FanoutStaysStopped(adding, className, pks[..i], pks[i..], rows, author, createdArg);
          assert pks[..i] + pks[i..] == pks;
        }
        assert pks[..|pks|] == pks;
      }
    }

    /**
     * `notify_m2m_changed` as written: the created notifier is called without
     * `created`, so "post_add" leaves the log as it was, while "post_remove"
     * records one deletion per id until an id is missing.
     */
    method NotifyM2MChanged(action: string, className: string, pks: seq<Pk>, rows: map<Pk, Target>, author: Option<Actor>)
      modifies this
      ensures activities == old(activities) + M2MAsWritten(action, className, pks, rows, author)
      ensures action == "post_add" ==> activities == old(activities)
      ensures action != "post_add" ==> activities == old(activities) + M2MActivities(action, className, pks, rows, author)
    {
      NotifyM2MChangedWith(action, className, pks, rows, author, None);
    }

    /**
     * `notify_m2m_changed` as intended: each added row is reported as
     * created, one record per id until an id is missing.
     */
    method NotifyM2MChangedIntended(action: string, className: string, pks: seq<Pk>, rows: map<Pk, Target>,
                                    author: Option<Actor>)
      modifies this
      ensures activities == old(activities) + M2MActivities(action, className, pks, rows, author)
    {
      NotifyM2MChangedWith(action, className, pks, rows, author, Some(true));
    }
  }

  /** An e-mail message to send. */
  datatype Email = Email(subject: string, body: string, fromAddress: string, to: seq<string>, html: bool)

  /** The fields of a notification the e-mail rule reads. */
  datatype Notification = Notification(title: string, description: string, signature: string, target: Option<Pk>)

  /**
   * `send_notification_email`: a just-created notification with a target is
   * mailed to the address of the target's subscription to its signature when
   * that subscription asks for e-mail and has an address; otherwise nothing
   * is sent, and a missing subscription is not an error.
   */
  function NotificationEmail(n: Notification, created: bool, rows: Rows, defaultFrom: Option<string>): (r: Option<Email>)
    ensures r.Some? <==>
      && created && n.target.Some?
      && SubKey(n.target.value, n.signature) in rows
      && rows[SubKey(n.target.value, n.signature)].sendEmail
      && rows[SubKey(n.target.value, n.signature)].email != ""
    ensures r.Some? ==>
      && r.value.to == [rows[SubKey(n.target.value, n.signature)].email]
      && r.value.subject == n.title && r.value.body == n.description && r.value.html
      && r.value.fromAddress == defaultFrom.GetOr("no-reply@localhost.com")
  {
    if !created || n.target.None? then None
    else
      var key := SubKey(n.target.value, n.signature);
      if key !in rows || !rows[key].sendEmail then None
      else if rows[key].email == "" then None
      else Some(Email(n.title, n.description, defaultFrom.GetOr("no-reply@localhost.com"), [rows[key].email], true))
  }
}
