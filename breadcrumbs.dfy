/**
 * The breadcrumb template tags (djangoerp/core/templatetags/breadcrumbs.py).
 *
 * The tags keep a list of (label, href) pairs on the request object, which
 * may not have the attribute at all; `Request.breadcrumbs` is `None` until a
 * crumb is first added. URL reversal is a function from a view name and its
 * arguments to a path, supplied by the caller.
 */
module Breadcrumbs {
  import opened Wrappers
  import opened Strings

  /** One entry of the trail: the crumb's text and its link, if any. */
  datatype Crumb = Crumb(text: string, href: Option<string>)

  /** `reverse(view_name, args=args)`. */
  type Reverser = (string, seq<string>) -> string

  /** A crumb or URL argument is falsy when it is `None` or the empty string. */
  predicate Truthy(s: Option<string>) {
    s.Some? && s.value != ""
  }

  /**
   * The link stored for a crumb: an empty or missing URL is kept as given, a
   * URL that starts with '/' is kept verbatim, anything else is resolved as a
   * view name.
   */
  function Href(url: Option<string>, args: seq<string>, reverse: Reverser): (href: Option<string>)
    ensures !Truthy(url) ==> href == url
    ensures Truthy(url) && StartsWith(url.value, "/") ==> href == url
    ensures Truthy(url) && !StartsWith(url.value, "/") ==> href == Some(reverse(url.value, args))
  {
    if Truthy(url) && !StartsWith(url.value, "/") then Some(reverse(url.value, args)) else url
  }

  /**
   * When every reversed URL is an absolute path, resolving a stored link again
   * changes nothing.
   */
  lemma HrefStable(url: Option<string>, args: seq<string>, reverse: Reverser)
    requires forall name, a :: StartsWith(reverse(name, a), "/")
    ensures Href(Href(url, args, reverse), args, reverse) == Href(url, args, reverse)
  {
  }

  /** The trail after `add_crumb`: a falsy crumb changes nothing. */
  function Pushed(trail: Option<seq<Crumb>>, crumb: Option<string>, url: Option<string>,
                  args: seq<string>, reverse: Reverser): Option<seq<Crumb>>
  {
    if Truthy(crumb) then Some(trail.GetOr([]) + [Crumb(crumb.value, Href(url, args, reverse))])
    else trail
  }

  /** The list after `remove_last_crumb`: an empty list stays empty. */
  function Popped(trail: seq<Crumb>): seq<Crumb> {
    if |trail| > 0 then trail[..|trail| - 1] else trail
  }

  /**
   * A non-empty crumb appends exactly one entry, `(str(crumb), href)`, after
   * the earlier entries, creating the list first when it is missing.
   */
  lemma PushAppendsOne(trail: Option<seq<Crumb>>, crumb: string, url: Option<string>,
                       args: seq<string>, reverse: Reverser)
    requires crumb != ""
    ensures var after := Pushed(trail, Some(crumb), url, args, reverse);
      && after.Some?
      && |after.value| == |trail.GetOr([])| + 1
      && after.value[..|trail.GetOr([])|] == trail.GetOr([])
      && after.value[|trail.GetOr([])|] == Crumb(crumb, Href(url, args, reverse))
  {
    var before := trail.GetOr([]);
    assert (before + [Crumb(crumb, Href(url, args, reverse))])[..|before|] == before;
  }

  /** Adding a crumb and removing the last one gives back the list as it was. */
  lemma PopUndoesPush(trail: Option<seq<Crumb>>, crumb: string, url: Option<string>,
                      args: seq<string>, reverse: Reverser)
    requires crumb != ""
    ensures Popped(Pushed(trail, Some(crumb), url, args, reverse).value) == trail.GetOr([])
  {
    PushAppendsOne(trail, crumb, url, args, reverse);
  }

  /** Removing from a non-empty list shortens it by one and keeps the prefix. */
  lemma PopKeepsPrefix(trail: seq<Crumb>)
    ensures |trail| > 0 ==> |Popped(trail)| == |trail| - 1 && trail == Popped(trail) + [trail[|trail| - 1]]
    ensures |trail| == 0 ==> Popped(trail) == trail
  {
  }

  /** The request object the tags read and write. */
  class Request {
    /** `request.breadcrumbs`, or `None` while the attribute does not exist. */
    var breadcrumbs: Option<seq<Crumb>>

    constructor ()
      ensures breadcrumbs == None
    {
      breadcrumbs := None;
    }

    /** `add_crumb(context, crumb, url, *args)`. */
    method AddCrumb(crumb: Option<string>, url: Option<string>, args: seq<string>, reverse: Reverser)
      modifies this
      ensures breadcrumbs == Pushed(old(breadcrumbs), crumb, url, args, reverse)
    {
      if Truthy(crumb) {
        var href := url;
        if Truthy(url) && !StartsWith(url.value, "/") {
          href := Some(reverse(url.value, args));
        }
        if breadcrumbs.None? {
          breadcrumbs := Some([]);
        }
        breadcrumbs := Some(breadcrumbs.value + [Crumb(crumb.value, href)]);
      }
    }

    /**
     * `remove_last_crumb(context)`: reading `request.breadcrumbs` raises
     * `AttributeError` when no list was ever created; `raised` reports it.
     */
    method RemoveLastCrumb() returns (raised: bool)
      modifies this
      ensures raised <==> old(breadcrumbs).None?
      ensures breadcrumbs == if raised then old(breadcrumbs) else Some(Popped(old(breadcrumbs).value))
    {
      if breadcrumbs.None? {
        return true;
      }
      raised := false;
      if |breadcrumbs.value| > 0 {
        breadcrumbs := Some(breadcrumbs.value[..|breadcrumbs.value| - 1]);
      }
    }

    /** `render_breadcrumbs(context)`: the stored list, or `None` if there is none. */
    method RenderBreadcrumbs() returns (rendered: Option<seq<Crumb>>)
      ensures rendered == breadcrumbs
    {
      rendered := breadcrumbs;
    }
  }

  /**
   * The rendering scenario the tag library is used for: a home crumb with a
   * literal path, then a crumb naming a view, rendered in order.
   */
  method RenderTwoCrumbs(reverse: Reverser) returns (rendered: Option<seq<Crumb>>)
    ensures rendered == Some([Crumb("Home", Some("/")), Crumb("Private zone", Some(reverse("private_zone_url", [])))])
  {
    var request := new Request();
    request.AddCrumb(Some("Home"), Some("/"), [], reverse);
    assert StartsWith("/", "/") && Truthy(Some("Home")) && Truthy(Some("/"));
    assert Href(Some("/"), [], reverse) == Some("/");
    var none: Option<seq<Crumb>> := None;
    assert none.GetOr([]) == [];
    assert none.GetOr([]) + [Crumb("Home", Href(Some("/"), [], reverse))] == [Crumb("Home", Some("/"))];
    assert Pushed(none, Some("Home"), Some("/"), [], reverse) == Some([Crumb("Home", Some("/"))]);
    assert request.breadcrumbs == Some([Crumb("Home", Some("/"))]);
    request.AddCrumb(Some("Private zone"), Some("private_zone_url"), [], reverse);
    assert !StartsWith("private_zone_url", "/") by {
      assert "private_zone_url"[..1] == "p";
    }
    assert Truthy(Some("Private zone")) && Truthy(Some("private_zone_url"));
    var home := [Crumb("Home", Some("/"))];
    var privateZone := Crumb("Private zone", Some(reverse("private_zone_url", [])));
    assert Href(Some("private_zone_url"), [], reverse) == Some(reverse("private_zone_url", []));
    assert Some(home).GetOr([]) + [privateZone] == [Crumb("Home", Some("/")), privateZone];
    rendered := request.RenderBreadcrumbs();
  }
}
