/**
 * The notification tables shared by the signal handlers and the
 * subscription form: subscriptions keyed by (subscriber, signature slug).
 */
module NotificationData {

  /** Primary key of a user or of any other row. */
  type Pk = nat

  /** A field value as the change tracker sees it: empty, a related row, or plain data. */
  datatype Value = Null | Ref(id: Pk) | Scalar(text: string)

  /** A subscription is identified by its subscriber and its signature's slug. */
  datatype SubKey = SubKey(subscriber: Pk, signature: string)

  /** The data a subscription row carries. */
  datatype Subscription = Subscription(email: string, sendEmail: bool)

  /** The subscription table: at most one row per (subscriber, signature). */
  type Rows = map<SubKey, Subscription>

  /** The table after every row of `user` is given the e-mail address `email`. */
  function WithSubscriberEmail(rows: Rows, user: Pk, email: string): Rows {
    map k | k in rows :: if k.subscriber == user then rows[k].(email := email) else rows[k]
  }

  /**
   * Copying a user's address touches only that user's rows, and only their
   * address: the same rows exist, the e-mail flags are kept, and doing it
   * again changes nothing.
   */
  lemma SubscriberEmailCopied(rows: Rows, user: Pk, email: string)
    ensures var after := WithSubscriberEmail(rows, user, email);
      && after.Keys == rows.Keys
      && (forall k :: k in after ==> after[k].sendEmail == rows[k].sendEmail)
      && (forall k :: k in after && k.subscriber == user ==> after[k].email == email)
      && (forall k :: k in after && k.subscriber != user ==> after[k] == rows[k])
      && WithSubscriberEmail(after, user, email) == after
  {
    var after := WithSubscriberEmail(rows, user, email);
    assert after.Keys == rows.Keys;
    var again := WithSubscriberEmail(after, user, email);
    assert again.Keys == after.Keys;
  }

  class SubscriptionTable {
    var rows: Rows

    constructor (rows0: Rows)
      ensures rows == rows0
    {
      rows := rows0;
    }

    /**
     * `update_user_subscription_email`: every subscription of the saved user
     * is given the user's current e-mail address, one row at a time.
     */
    method UpdateUserSubscriptionEmail(user: Pk, email: string)
      modifies this
      ensures rows == WithSubscriberEmail(old(rows), user, email)
    {
      var todo := set k | k in rows && k.subscriber == user;
      while todo != {}
        invariant rows.Keys == old(rows).Keys
        invariant todo <= rows.Keys
        invariant forall k :: k in todo ==> k.subscriber == user
        invariant forall k :: k in rows ==>
          rows[k] == if k.subscriber == user && k !in todo then old(rows)[k].(email := email) else old(rows)[k]
        decreases todo
      {
        var k :| k in todo;
        rows := rows[k := rows[k].(email := email)];
        todo := todo - {k};
      }
      assert rows == WithSubscriberEmail(old(rows), user, email);
    }
  }
}
