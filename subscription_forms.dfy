/**
 * The notification subscription form (djangoerp/notifications/forms.py):
 * the two-checkbox widget and field, and the form that shows one field per
 * signature and reconciles the subscription table with what was submitted.
 */
module SubscriptionForms {
  import opened Wrappers
  import opened Strings
  import opened NotificationData

  /** The Python values the widget and the field receive. */
  datatype PyValue =
    | PyBool(b: bool)
    | PyNone
    | PyText(s: string)
    | PyList(items: seq<PyValue>)
    | PyTuple(items: seq<PyValue>)

  /** `xs[:2]`. */
  function FirstTwo(xs: seq<PyValue>): (r: seq<PyValue>)
    ensures |r| == if |xs| < 2 then |xs| else 2
    ensures r == xs[..|r|]
  {
    if |xs| <= 2 then xs else xs[..2]
  }

  /**
   * `SubscriptionWidget.decompress(value)`: a list or tuple gives its first
   * two elements, as the same kind of sequence; anything else gives
   * `(False, False)`.
   */
  function Decompress(value: PyValue): PyValue {
    match value
    case PyList(items) => PyList(FirstTwo(items))
    case PyTuple(items) => PyTuple(FirstTwo(items))
    case _ => PyTuple([PyBool(false), PyBool(false)])
  }

  /** `SubscriptionField.compress(data_list)`: the first two items as a pair, or `None`. */
  function Compress(dataList: seq<PyValue>): Option<(PyValue, PyValue)> {
    if |dataList| >= 2 then Some((dataList[0], dataList[1])) else None
  }

  /**
   * What the widget splits a value into: at most two elements, a prefix of a
   * list or tuple of the same kind, and splitting again changes nothing.
   */
  lemma DecompressShape(value: PyValue)
    ensures var r := Decompress(value);
      && (r.PyList? || r.PyTuple?)
      && |r.items| <= 2
      && ((value.PyList? || value.PyTuple?) ==> r.items == value.items[..|r.items|] && r.PyList? == value.PyList?)
      && (!(value.PyList? || value.PyTuple?) ==> r == PyTuple([PyBool(false), PyBool(false)]))
      && Decompress(r) == r
  {
  }

  /**
   * Compressing what the widget split gives the pair of the value's first two
   * elements, `(False, False)` for a value that is not a sequence, and `None`
   * for a sequence of fewer than two elements; splitting the pair gives it back.
   */
  lemma CompressAfterDecompress(value: PyValue)
    ensures (value.PyList? || value.PyTuple?) && |value.items| >= 2 ==>
      Compress(Decompress(value).items) == Some((value.items[0], value.items[1]))
    ensures (value.PyList? || value.PyTuple?) && |value.items| < 2 ==> Compress(Decompress(value).items) == None
    ensures !(value.PyList? || value.PyTuple?) ==> Compress(Decompress(value).items) == Some((PyBool(false), PyBool(false)))
    ensures var c := Compress(Decompress(value).items);
      c.Some? ==> Decompress(PyTuple([c.value.0, c.value.1])) == PyTuple([c.value.0, c.value.1])
  {
  }

  /** `SubscriptionWidget.format_output(rendered_widgets)`. */
  function FormatOutput(rendered: seq<string>): string {
    "<td>" + Join("</td>\n<td>", rendered) + "</td>"
  }

  /** One table cell. */
  function Cell(r: string): string {
    "<td>" + r + "</td>"
  }

  /** The cells of the rendered widgets, in order. */
  function Cells(rendered: seq<string>): (r: seq<string>)
    ensures |r| == |rendered|
    ensures forall i :: 0 <= i < |rendered| ==> r[i] == Cell(rendered[i])
  {
    if rendered == [] then [] else [Cell(rendered[0])] + Cells(rendered[1..])
  }

  /**
   * Each rendered widget is wrapped in its own cell and the cells are
   * separated by newlines; with no widget at all the output is one empty cell.
   */
  lemma {:induction false} FormatOutputIsCells(rendered: seq<string>)
    ensures |rendered| > 0 ==> FormatOutput(rendered) == Join("\n", Cells(rendered))
    ensures rendered == [] ==> FormatOutput(rendered) == "<td></td>"
    decreases |rendered|
  {
    if |rendered| >= 2 {
      var rest := rendered[1..];
      FormatOutputIsCells(rest);
      var cells := Cells(rendered);
      assert cells[1..] == Cells(rest);
      var j := Join("</td>\n<td>", rest);
      calc {
        FormatOutput(rendered);
        "<td>" + (rendered[0] + "</td>\n<td>" + j) + "</td>";
        Cell(rendered[0]) + "\n" + ("<td>" + j + "</td>");
        Cell(rendered[0]) + "\n" + Join("\n", Cells(rest));
        Join("\n", cells);
      }
    } else if |rendered| == 1 {
      assert Join("\n", Cells(rendered)) == Cell(rendered[0]);
    } else {
      assert FormatOutput(rendered) == "<td>" + "" + "</td>";
    }
  }

  /** An entry of the signature list the form is built from. */
  datatype SignatureEntry = SignatureEntry(slug: string, title: string) | NotASignature

  /** A subscription field: its label text and its initial (subscribe, send e-mail) pair. */
  datatype SubscriptionField = SubscriptionField(title: string, initial: (bool, bool))

  /**
   * The initial value of a signature's field: the caller's initial value for
   * the slug if there is one, otherwise whether a subscription exists and
   * whether it asks for e-mail.
   */
  function InitialFor(slug: string, subscriber: Pk, initial: map<string, (bool, bool)>, rows: Rows): (bool, bool) {
    if slug in initial then initial[slug]
    else
      var key := SubKey(subscriber, slug);
      (key in rows, key in rows && rows[key].sendEmail)
  }

  /** The form's fields after the constructor's loop over the signatures. */
  function FieldsFor(signatures: seq<SignatureEntry>, subscriber: Pk, initial: map<string, (bool, bool)>, rows: Rows)
    : map<string, SubscriptionField>
    decreases |signatures|
  {
    if signatures == [] then map[]
    else
      var earlier := FieldsFor(signatures[..|signatures| - 1], subscriber, initial, rows);
      match signatures[|signatures| - 1]
      case SignatureEntry(slug, title) =>
        earlier[slug := SubscriptionField(title, InitialFor(slug, subscriber, initial, rows))]
      case NotASignature => earlier
  }

  /**
   * The constructor makes exactly one field per signature slug, skipping
   * entries that are not signatures, each with the initial value `InitialFor`.
   */
  lemma {:induction false} FieldsForExact(signatures: seq<SignatureEntry>, subscriber: Pk,
                                          initial: map<string, (bool, bool)>, rows: Rows, slug: string)
    ensures var fields := FieldsFor(signatures, subscriber, initial, rows);
      && (slug in fields <==> exists i :: 0 <= i < |signatures| && signatures[i].SignatureEntry? && signatures[i].slug == slug)
      && (slug in fields ==> fields[slug].initial == InitialFor(slug, subscriber, initial, rows))
    decreases |signatures|
  {
    if signatures != [] {
      var n := |signatures| - 1;
      var init := signatures[..n];
      FieldsForExact(init, subscriber, initial, rows, slug);
      if exists i :: 0 <= i < |init| && init[i].SignatureEntry? && init[i].slug == slug {
        var i :| 0 <= i < |init| && init[i].SignatureEntry? && init[i].slug == slug;
        assert signatures[i] == init[i];
      }
      if exists i :: 0 <= i < |signatures| && signatures[i].SignatureEntry? && signatures[i].slug == slug {
        var i :| 0 <= i < |signatures| && signatures[i].SignatureEntry? && signatures[i].slug == slug;
        if i < n {
          assert init[i] == signatures[i];
        }
      }
    }
  }

  /** Why `save` stopped: a value that is not a pair, an unknown slug, a missing field. */
  datatype SaveError = NotAPair | UnknownSignature | NoSuchField

  /** The state `save` works on: the table, the form's fields, and the error that stopped it. */
  datatype SaveState = SaveState(rows: Rows, fields: map<string, SubscriptionField>, error: Option<SaveError>)

  /**
   * One iteration of `save` for the entry `(key, value)`: the value is
   * unpacked into (subscribe, email), the signature is looked up by slug, then
   * a subscription is created or updated, or deleted together with resetting
   * the field's initial value.
   */
  function SaveStep(st: SaveState, subscriber: Pk, email: string, knownSlugs: set<string>,
                    entry: (string, Option<(bool, bool)>)): SaveState
  {
    var (key, value) := entry;
    if value.None? then st.(error := Some(NotAPair))
    else if key !in knownSlugs then st.(error := Some(UnknownSignature))
    else
      var k := SubKey(subscriber, key);
      var (subscribe, sendEmail) := value.value;
      if subscribe then st.(rows := st.rows[k := Subscription(email, sendEmail)])
      else if k in st.rows then
        if key in st.fields then
          SaveState(st.rows - {k}, st.fields[key := st.fields[key].(initial := (false, false))], st.error)
        else SaveState(st.rows - {k}, st.fields, Some(NoSuchField))
      else st
  }

  /** `save` over the cleaned data in order, stopping at the first error. */
  function SaveAll(st: SaveState, data: seq<(string, Option<(bool, bool)>)>, subscriber: Pk, email: string,
                   knownSlugs: set<string>): SaveState
    decreases |data|
  {
    if data == [] then st
    else
      var earlier := SaveAll(st, data[..|data| - 1], subscriber, email, knownSlugs);
      if earlier.error.Some? then earlier
      else SaveStep(earlier, subscriber, email, knownSlugs, data[|data| - 1])
  }

  /** The slugs the cleaned data mentions. */
  function DataSlugs(data: seq<(string, Option<(bool, bool)>)>): set<string> {
    set e | e in data :: e.0
  }

  /** Well-formed cleaned data: distinct slugs, each a pair, each a known signature with a field. */
  predicate CleanData(data: seq<(string, Option<(bool, bool)>)>, knownSlugs: set<string>,
                      fields: map<string, SubscriptionField>)
  {
    && (forall i, j :: 0 <= i < j < |data| ==> data[i].0 != data[j].0)
    && (forall i :: 0 <= i < |data| ==> data[i].1.Some? && data[i].0 in knownSlugs && data[i].0 in fields)
  }

  /** The slugs whose field `save` resets: submitted as unsubscribed while a row of the subscriber existed. */
  function ResetSlugs(data: seq<(string, Option<(bool, bool)>)>, subscriber: Pk, rows: Rows): set<string> {
    set e | e in data && e.1.Some? && !e.1.value.0 && SubKey(subscriber, e.0) in rows :: e.0
  }

  /**
   * The table side of reconciliation. On clean data `save` succeeds and
   * afterwards a submitted subscribe yields the row (subscriber e-mail,
   * submitted flag), a submitted unsubscribe leaves no row, and rows of other
   * subscribers or of slugs that were not submitted are untouched.
   */
  lemma {:induction false} SaveRowsReconciled(st: SaveState, data: seq<(string, Option<(bool, bool)>)>, subscriber: Pk,
                                              email: string, knownSlugs: set<string>)
    requires st.error.None?
    requires CleanData(data, knownSlugs, st.fields)
    ensures var out := SaveAll(st, data, subscriber, email, knownSlugs);
      && out.error.None?
      && out.fields.Keys == st.fields.Keys
      && (forall i :: 0 <= i < |data| && data[i].1.value.0 ==>
            SubKey(subscriber, data[i].0) in out.rows
            && out.rows[SubKey(subscriber, data[i].0)] == Subscription(email, data[i].1.value.1))
      && (forall i :: 0 <= i < |data| && !data[i].1.value.0 ==> SubKey(subscriber, data[i].0) !in out.rows)
      && (forall k: SubKey :: k.subscriber != subscriber || k.signature !in DataSlugs(data) ==>
            (k in out.rows <==> k in st.rows) && (k in st.rows ==> out.rows[k] == st.rows[k]))
    decreases |data|
  {
    if data != [] {
      var n := |data| - 1;
      var init := data[..n];
      assert CleanData(init, knownSlugs, st.fields);
      SaveRowsReconciled(st, init, subscriber, email, knownSlugs);
      var mid := SaveAll(st, init, subscriber, email, knownSlugs);
      var out := SaveAll(st, data, subscriber, email, knownSlugs);
      var key := data[n].0;
      assert key !in DataSlugs(init) by {
        forall e | e in init ensures e.0 != key {
          var i :| 0 <= i < |init| && init[i] == e;
          assert data[i] == e;
        }
      }
      assert key in mid.fields;
      assert out == SaveStep(mid, subscriber, email, knownSlugs, data[n]);
      assert DataSlugs(data) == DataSlugs(init) + {key} by {
        assert data == init + [data[n]];
      }
      forall i | 0 <= i < n
        ensures data[i] == init[i] && data[i].0 != key
      {
      }
    }
  }

  /**
   * The field side of reconciliation. On clean data, a field whose slug was
   * submitted as unsubscribed while a row existed has its initial value reset
   * to (False, False) and keeps its title; every other field is exactly as it
   * was, so an unsubscribe without a subscription changes nothing.
   */
  lemma {:induction false} SaveFieldsReconciled(st: SaveState, data: seq<(string, Option<(bool, bool)>)>, subscriber: Pk,
                                                email: string, knownSlugs: set<string>)
    requires st.error.None?
    requires CleanData(data, knownSlugs, st.fields)
    ensures var out := SaveAll(st, data, subscriber, email, knownSlugs);
      && (forall s :: s in ResetSlugs(data, subscriber, st.rows) ==>
            s in out.fields && out.fields[s] == st.fields[s].(initial := (false, false)))
      && (forall s :: s in st.fields && s !in ResetSlugs(data, subscriber, st.rows) ==>
            s in out.fields && out.fields[s] == st.fields[s])
    decreases |data|
  {
    if data != [] {
      var n := |data| - 1;
      var init := data[..n];
      assert CleanData(init, knownSlugs, st.fields);
      SaveFieldsReconciled(st, init, subscriber, email, knownSlugs);
      SaveRowsReconciled(st, init, subscriber, email, knownSlugs);
      var mid := SaveAll(st, init, subscriber, email, knownSlugs);
      var out := SaveAll(st, data, subscriber, email, knownSlugs);
      var key := data[n].0;
      var k := SubKey(subscriber, key);
      assert key !in DataSlugs(init) by {
        forall e | e in init ensures e.0 != key {
          var i :| 0 <= i < |init| && init[i] == e;
          assert data[i] == e;
        }
      }
      assert k in mid.rows <==> k in st.rows;
      assert key in mid.fields;
      assert out == SaveStep(mid, subscriber, email, knownSlugs, data[n]);
      var before := ResetSlugs(init, subscriber, st.rows);
      var after := ResetSlugs(data, subscriber, st.rows);
      var resets := !data[n].1.value.0 && k in st.rows;
      assert key !in before;
      forall s | s in before ensures s in after {
        var e :| e in init && e.1.Some? && !e.1.value.0 && SubKey(subscriber, e.0) in st.rows && e.0 == s;
        var i :| 0 <= i < n && init[i] == e;
        assert data[i] == e;
      }
      forall s | s in after && s != key ensures s in before {
        var e :| e in data && e.1.Some? && !e.1.value.0 && SubKey(subscriber, e.0) in st.rows && e.0 == s;
        var i :| 0 <= i < |data| && data[i] == e;
        assert i != n;
        assert init[i] == e;
      }
      assert key in after <==> resets by {
        if resets {
          assert data[n] in data;
        }
      }
      if resets {
        assert out.fields == mid.fields[key := mid.fields[key].(initial := (false, false))];
      } else {
        assert out.fields == mid.fields;
      }
    }
  }

  /**
   * Reconciliation, both sides: on clean data `save` succeeds, the table
   * holds exactly what was submitted for the subscriber's slugs and nothing
   * else changes, and a field is reset exactly when a subscription was
   * removed.
   */
  lemma SaveReconciles(st: SaveState, data: seq<(string, Option<(bool, bool)>)>, subscriber: Pk,
                       email: string, knownSlugs: set<string>)
    requires st.error.None?
    requires CleanData(data, knownSlugs, st.fields)
    ensures var out := SaveAll(st, data, subscriber, email, knownSlugs);
      && out.error.None?
      && out.fields.Keys == st.fields.Keys
      && (forall i :: 0 <= i < |data| && data[i].1.value.0 ==>
            SubKey(subscriber, data[i].0) in out.rows
            && out.rows[SubKey(subscriber, data[i].0)] == Subscription(email, data[i].1.value.1))
      && (forall i :: 0 <= i < |data| && !data[i].1.value.0 ==> SubKey(subscriber, data[i].0) !in out.rows)
      && (forall i :: 0 <= i < |data| && !data[i].1.value.0 && SubKey(subscriber, data[i].0) in st.rows ==>
            out.fields[data[i].0] == st.fields[data[i].0].(initial := (false, false)))
      && (forall s :: s in st.fields && s !in ResetSlugs(data, subscriber, st.rows) ==> out.fields[s] == st.fields[s])
      && (forall k: SubKey :: k.subscriber != subscriber || k.signature !in DataSlugs(data) ==>
            (k in out.rows <==> k in st.rows) && (k in st.rows ==> out.rows[k] == st.rows[k]))
  {
    SaveRowsReconciled(st, data, subscriber, email, knownSlugs);
    SaveFieldsReconciled(st, data, subscriber, email, knownSlugs);
    forall i | 0 <= i < |data| && !data[i].1.value.0 && SubKey(subscriber, data[i].0) in st.rows
      ensures data[i].0 in ResetSlugs(data, subscriber, st.rows)
    {
      assert data[i] in data;
    }
  }

  /** Once `save` has stopped, later entries change nothing. */
  lemma {:induction false} SaveStaysStopped(st: SaveState, data: seq<(string, Option<(bool, bool)>)>,
                                            rest: seq<(string, Option<(bool, bool)>)>, subscriber: Pk, email: string,
                                            knownSlugs: set<string>)
    requires SaveAll(st, data, subscriber, email, knownSlugs).error.Some?
    ensures SaveAll(st, data + rest, subscriber, email, knownSlugs) == SaveAll(st, data, subscriber, email, knownSlugs)
    decreases |rest|
  {
    if rest == [] {
      assert data + rest == data;
    } else {
      var init := rest[..|rest| - 1];
      SaveStaysStopped(st, data, init, subscriber, email, knownSlugs);
      assert (data + rest)[..|data + rest| - 1] == data + init;
    }
  }

  /**
   * An unknown slug raises: the table keeps what the earlier entries did and
   * no later entry is applied.
   */
  lemma SaveStopsAtUnknownSlug(st: SaveState, before: seq<(string, Option<(bool, bool)>)>, key: string,
                               pair: (bool, bool), rest: seq<(string, Option<(bool, bool)>)>, subscriber: Pk,
                               email: string, knownSlugs: set<string>)
    requires SaveAll(st, before, subscriber, email, knownSlugs).error.None?
    requires key !in knownSlugs
    ensures var out := SaveAll(st, before + [(key, Some(pair))] + rest, subscriber, email, knownSlugs);
      var earlier := SaveAll(st, before, subscriber, email, knownSlugs);
      out.error == Some(UnknownSignature) && out.rows == earlier.rows && out.fields == earlier.fields
  {
    var stopped := before + [(key, Some(pair))];
    assert stopped[..|before|] == before;
    SaveStaysStopped(st, stopped, rest, subscriber, email, knownSlugs);
  }

  /** The subscription form of one subscriber. */
  class SubscriptionsForm {
    /** The subscriber's key and e-mail address. */
    const subscriber: Pk
    const subscriberEmail: string
    /** The form's fields by name. */
    var fields: map<string, SubscriptionField>

    /**
     * `SubscriptionsForm.__init__`: one subscription field per signature in
     * `signatures`, keyed by slug, its initial value taken from `initial` or
     * read from the subscription table.
     */
    constructor (subscriber0: Pk, email0: string, signatures: seq<SignatureEntry>,
                 initial: map<string, (bool, bool)>, table: SubscriptionTable)
      ensures subscriber == subscriber0 && subscriberEmail == email0
      ensures fields == FieldsFor(signatures, subscriber0, initial, table.rows)
    {
      subscriber := subscriber0;
      subscriberEmail := email0;
      fields := map[];
      new;
      for i := 0 to |signatures|
        invariant fields == FieldsFor(signatures[..i], subscriber0, initial, table.rows)
      {
        assert signatures[..i + 1][..i] == signatures[..i];
        match signatures[i]
        case SignatureEntry(slug, title) =>
          var isSubscriber := SubKey(subscriber, slug) in table.rows;
          var sendEmail := isSubscriber && table.rows[SubKey(subscriber, slug)].sendEmail;
          var init := if slug in initial then initial[slug] else (isSubscriber, sendEmail);
          fields := fields[slug := SubscriptionField(title, init)];
        case NotASignature =>
      }
      assert signatures[..|signatures|] == signatures;
    }

    /**
     * `SubscriptionsForm.save`, over the cleaned data: `error` reports the
     * exception that ended it, after which nothing else was changed.
     */
    method Save(data: seq<(string, Option<(bool, bool)>)>, knownSlugs: set<string>, table: SubscriptionTable)
      returns (error: Option<SaveError>)
      modifies this`fields, table
      ensures var out := SaveAll(SaveState(old(table.rows), old(fields), None), data, subscriber, subscriberEmail, knownSlugs);
        table.rows == out.rows && fields == out.fields && error == out.error
    {
      ghost var start := SaveState(table.rows, fields, None);
      error := None;
      var i := 0;
      assert data[..0] == [];
      while i < |data| && error.None?
        invariant 0 <= i <= |data|
        invariant SaveState(table.rows, fields, error) == SaveAll(start, data[..i], subscriber, subscriberEmail, knownSlugs)
      {
        assert data[..i + 1][..i] == data[..i];
        var (key, value) := data[i];
        if value.None? {
          error := Some(NotAPair);
        } else if key !in knownSlugs {
          error := Some(UnknownSignature);
        } else {
          var k := SubKey(subscriber, key);
          var (subscribe, sendEmail) := value.value;
          var isSubscriber := k in table.rows;
          if subscribe {
            table.rows := table.rows[k := Subscription(subscriberEmail, sendEmail)];
          } else if isSubscriber {
            table.rows := table.rows - {k};
            if key in fields {
              fields := fields[key := fields[key].(initial := (false, false))];
            } else {
              error := Some(NoSuchField);
            }
          }
        }
        i := i + 1;
      }
      if error.Some? {
        SaveStaysStopped(start, data[..i], data[i..], subscriber, subscriberEmail, knownSlugs);
        assert data[..i] + data[i..] == data;
      } else {
        assert data[..|data|] == data;
      }
    }
  }
}
