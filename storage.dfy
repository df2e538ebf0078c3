/**
 * DatabaseManager: the SQL statements over the `users` and `tracking_items`
 * tables. The tables are sequences in rowid order; a row's id is its
 * position plus one. CURRENT_TIMESTAMP is the statement counter `clock`,
 * and `fault` says which statements fail (a failing statement changes
 * nothing and rejects with the given message).
 */
module Storage {
  import opened Js

  datatype User = User(id: nat, telegramId: JsString, username: JsString, firstName: JsString, lastName: JsString)

  /** A tracking_items row; the timestamps are clock values. */
  datatype Item = Item(
    id: nat, userId: nat, url: JsString, xpath: JsString, labelText: Option<JsString>,
    lastContent: Option<JsString>, lastHash: Option<JsValue>,
    lastChecked: Option<nat>, lastUpdated: Option<nat>,
    createdAt: nat, active: bool)

  /** A row of `SELECT ti.*, u.telegram_id ... JOIN users u ON ti.user_id = u.id`. */
  datatype Row = Row(item: Item, telegramId: JsString)

  // ---------------------------------------------------------------------
  // The users table

  /** `SELECT * FROM users WHERE telegram_id = ?`, first row. */
  function FindUser(users: seq<User>, telegramId: JsString): (r: Option<User>)
    ensures r.Some? <==> exists k :: 0 <= k < |users| && users[k].telegramId == telegramId
    ensures r.Some? ==> r.value in users && r.value.telegramId == telegramId
    decreases |users|
  {
    if users == [] then None
    else if users[0].telegramId == telegramId then Some(users[0])
    else FindUser(users[1..], telegramId)
  }

  /**
   * The users table after `INSERT OR IGNORE INTO users (...)`: a new row
   * unless the telegram_id (a unique key) is already present.
   */
  function Registered(users: seq<User>, telegramId: JsString, username: JsString,
                      firstName: JsString, lastName: JsString): (r: seq<User>)
    ensures users <= r && |r| <= |users| + 1
    ensures r == users <==> FindUser(users, telegramId).Some?
  {
    if FindUser(users, telegramId).Some? then users
    else users + [User(|users| + 1, telegramId, username, firstName, lastName)]
  }

  predicate UsersValid(users: seq<User>) {
    (forall k :: 0 <= k < |users| ==> users[k].id == k + 1) &&
    (forall j, k :: 0 <= j < k < |users| ==> users[j].telegramId != users[k].telegramId)
  }

  /**
   * Registering keeps ids and telegram ids unique, never changes an
   * existing row (a second /start does not refresh the profile), and
   * afterwards the telegram id is found.
   */
  lemma RegisteredKeepsUsers(users: seq<User>, telegramId: JsString, username: JsString,
                             firstName: JsString, lastName: JsString)
    requires UsersValid(users)
    ensures var r := Registered(users, telegramId, username, firstName, lastName);
      UsersValid(r) && users <= r && |r| <= |users| + 1 &&
      FindUser(r, telegramId).Some? &&
      (FindUser(users, telegramId).Some? ==> FindUser(r, telegramId) == FindUser(users, telegramId)) &&
      (FindUser(users, telegramId).None? ==>
         FindUser(r, telegramId) == Some(User(|users| + 1, telegramId, username, firstName, lastName)))
  {
    var r := Registered(users, telegramId, username, firstName, lastName);
    if FindUser(users, telegramId).None? {
      FindUserAppend(users, User(|users| + 1, telegramId, username, firstName, lastName), telegramId);
    }
  }

  lemma {:induction false} FindUserAppend(users: seq<User>, u: User, telegramId: JsString)
    requires FindUser(users, telegramId).None? && u.telegramId == telegramId
    ensures FindUser(users + [u], telegramId) == Some(u)
    decreases |users|
  {
    if users == [] {
      assert users + [u] == [u];
    } else {
      assert (users + [u])[1..] == users[1..] + [u];
      FindUserAppend(users[1..], u, telegramId);
    }
  }

  // ---------------------------------------------------------------------
  // The tracking_items table, as functions of the table

  predicate ItemsValid(items: seq<Item>) {
    forall k :: 0 <= k < |items| ==> items[k].id == k + 1
  }

  /** The row counted and listed for a user: `WHERE user_id = ? AND is_active = 1`. */
  predicate Listed(item: Item, userId: nat) {
    item.userId == userId && item.active
  }

  /** The table after `INSERT INTO tracking_items (user_id, url, xpath, label)`. */
  function Inserted(items: seq<Item>, userId: nat, url: JsString, xpath: JsString,
                    labelText: Option<JsString>, now: nat): (r: seq<Item>)
    ensures |r| == |items| + 1 && r[..|items|] == items
    ensures Listed(r[|items|], userId) && r[|items|].lastContent.None? && r[|items|].lastHash.None?
  {
    items + [Item(|items| + 1, userId, url, xpath, labelText, None, None, None, None, now, true)]
  }

  /** `SELECT COUNT(*) ... WHERE user_id = ? AND is_active = 1`. */
  function ActiveCount(items: seq<Item>, userId: nat): (r: nat)
    ensures r <= |items|
    decreases |items|
  {
    if items == [] then 0
    else (if Listed(items[0], userId) then 1 else 0) + ActiveCount(items[1..], userId)
  }

  /**
   * `SELECT * ... WHERE user_id = ? AND is_active = 1 ORDER BY created_at
   * DESC`: the user's active rows, newest first.
   */
  function ListedFor(items: seq<Item>, userId: nat): (r: seq<Item>)
    ensures forall x :: x in r <==> x in items && Listed(x, userId)
    decreases |items|
  {
    if items == [] then []
    else
      var last := items[|items| - 1];
      (if Listed(last, userId) then [last] else []) + ListedFor(items[..|items| - 1], userId)
  }

  /** The listing has one entry per counted row, newest (highest id) first. */
  lemma ListedForCountAndOrder(items: seq<Item>, userId: nat)
    requires ItemsValid(items)
    ensures |ListedFor(items, userId)| == ActiveCount(items, userId)
    ensures var r := ListedFor(items, userId);
      forall i, j :: 0 <= i < j < |r| ==> r[i].id > r[j].id
  {
    ListedForCount(items, userId);
    ListedForDescending(items, userId);
  }

  lemma {:induction false} ListedForCount(items: seq<Item>, userId: nat)
    ensures |ListedFor(items, userId)| == ActiveCount(items, userId)
    decreases |items|
  {
    if items != [] {
      var n := |items|;
      var front := items[..n - 1];
      ListedForCount(front, userId);
      ActiveCountSnoc(front, items[n - 1], userId);
      assert front + [items[n - 1]] == items;
    }
  }

  /** Items in strictly descending id order. */
  predicate Descending(r: seq<Item>) {
    forall i, j :: 0 <= i < j < |r| ==> r[i].id > r[j].id
  }

  lemma {:induction false} ListedForDescending(items: seq<Item>, userId: nat)
    requires ItemsValid(items)
    ensures Descending(ListedFor(items, userId))
    decreases |items|
  {
    if items != [] {
      var n := |items|;
      var last := items[n - 1];
      var front := items[..n - 1];
      assert ItemsValid(front);
      ListedForDescending(front, userId);
      var rest := ListedFor(front, userId);
      if Listed(last, userId) {
        forall j | 0 <= j < |rest| ensures last.id > rest[j].id {
          assert rest[j] in rest;
          var k :| 0 <= k < |front| && front[k] == rest[j];
        }
        PrependDescending(last, rest);
      }
    }
  }

  lemma PrependDescending(h: Item, rest: seq<Item>)
    requires Descending(rest) && forall j :: 0 <= j < |rest| ==> h.id > rest[j].id
    ensures Descending([h] + rest)
  {
    var r := [h] + rest;
    forall i, j | 0 <= i < j < |r| ensures r[i].id > r[j].id {
      assert r[j] == rest[j - 1];
      if i > 0 {
        assert r[i] == rest[i - 1];
      }
    }
  }

  lemma {:induction false} ActiveCountSnoc(items: seq<Item>, x: Item, userId: nat)
    ensures ActiveCount(items + [x], userId) == ActiveCount(items, userId) + (if Listed(x, userId) then 1 else 0)
    decreases |items|
  {
    if items == [] {
      assert [] + [x] == [x];
    } else {
      assert (items + [x])[1..] == items[1..] + [x];
      ActiveCountSnoc(items[1..], x, userId);
    }
  }

  /**
   * `SELECT ti.*, u.telegram_id FROM tracking_items ti JOIN users u ON
   * ti.user_id = u.id WHERE ti.is_active = 1`, in rowid order.
   */
  function Joined(items: seq<Item>, users: seq<User>): (r: seq<Row>)
    ensures forall k :: 0 <= k < |r| ==> r[k].item in items && r[k].item.active
    ensures forall k :: 0 <= k < |r| ==> 1 <= r[k].item.userId <= |users|
    ensures forall k :: 0 <= k < |r| ==> r[k].telegramId == users[r[k].item.userId - 1].telegramId
    decreases |items|
  {
    if items == [] then []
    else
      var x := items[0];
      (if x.active && 1 <= x.userId <= |users| then [Row(x, users[x.userId - 1].telegramId)] else [])
      + Joined(items[1..], users)
  }

  /** Every active row whose owner exists is in the snapshot, with the owner's telegram id. */
  lemma {:induction false} JoinedHasEveryActiveItem(items: seq<Item>, users: seq<User>, k: nat)
    requires k < |items| && items[k].active && 1 <= items[k].userId <= |users|
    ensures Row(items[k], users[items[k].userId - 1].telegramId) in Joined(items, users)
    decreases k
  {
    if k > 0 {
      JoinedHasEveryActiveItem(items[1..], users, k - 1);
    }
  }

  /** Rows in strictly ascending id order. */
  predicate Ascending(r: seq<Row>) {
    forall i, j :: 0 <= i < j < |r| ==> r[i].item.id < r[j].item.id
  }

  lemma PrependAscending(h: Row, rest: seq<Row>)
    requires Ascending(rest) && forall j :: 0 <= j < |rest| ==> h.item.id < rest[j].item.id
    ensures Ascending([h] + rest)
  {
    var r := [h] + rest;
    forall i, j | 0 <= i < j < |r| ensures r[i].item.id < r[j].item.id {
      assert r[j] == rest[j - 1];
      if i > 0 {
        assert r[i] == rest[i - 1];
      }
    }
  }

  /** The snapshot is in ascending id order, so each row appears once. */
  lemma {:induction false} JoinedAscending(items: seq<Item>, users: seq<User>)
    requires forall i, j :: 0 <= i < j < |items| ==> items[i].id < items[j].id
    ensures Ascending(Joined(items, users))
    decreases |items|
  {
    if items != [] {
      var tail := items[1..];
      JoinedAscending(tail, users);
      var rest := Joined(tail, users);
      forall j | 0 <= j < |rest| ensures items[0].id < rest[j].item.id {
        var k :| 0 <= k < |tail| && tail[k] == rest[j].item;
        assert items[k + 1] == rest[j].item;
      }
      var x := items[0];
      if x.active && 1 <= x.userId <= |users| {
        PrependAscending(Row(x, users[x.userId - 1].telegramId), rest);
      }
    }
  }

  /** True when a row has this id and this owner: `WHERE id = ? AND user_id = ?` matches. */
  predicate OwnsItem(items: seq<Item>, userId: nat, itemId: int) {
    exists k :: 0 <= k < |items| && items[k].id == itemId && items[k].userId == userId
  }

  /** `UPDATE tracking_items SET is_active = 0 WHERE id = ? AND user_id = ?`. */
  function SoftDeleted(items: seq<Item>, userId: nat, itemId: int): (r: seq<Item>)
    ensures |r| == |items|
  {
    seq(|items|, k requires 0 <= k < |items| =>
      if items[k].id == itemId && items[k].userId == userId then items[k].(active := false) else items[k])
  }

  /**
   * `UPDATE ... SET last_content = ?, last_hash = ?, last_checked =
   * CURRENT_TIMESTAMP, last_updated = CURRENT_TIMESTAMP WHERE id = ?`.
   */
  function Stored(items: seq<Item>, itemId: int, content: JsString, hash: JsValue, now: nat): (r: seq<Item>)
    ensures |r| == |items|
  {
    seq(|items|, k requires 0 <= k < |items| =>
      if items[k].id == itemId
      then items[k].(lastContent := Some(content), lastHash := Some(hash), lastChecked := Some(now), lastUpdated := Some(now))
      else items[k])
  }

  /** `UPDATE tracking_items SET last_checked = CURRENT_TIMESTAMP WHERE id = ?`. */
  function Touched(items: seq<Item>, itemId: int, now: nat): (r: seq<Item>)
    ensures |r| == |items|
  {
    seq(|items|, k requires 0 <= k < |items| =>
      if items[k].id == itemId then items[k].(lastChecked := Some(now)) else items[k])
  }

  /**
   * The soft delete deactivates the one row with this id and owner, keeps
   * every other column of it, and changes no other row. Applying it again
   * changes nothing, and the row still matches, so a repeated /delete of
   * the same id reports success again.
   */
  lemma SoftDeletedEffect(items: seq<Item>, userId: nat, itemId: int)
    ensures forall k :: 0 <= k < |items| && !(items[k].id == itemId && items[k].userId == userId) ==>
              SoftDeleted(items, userId, itemId)[k] == items[k]
    ensures forall k :: 0 <= k < |items| && items[k].id == itemId && items[k].userId == userId ==>
              !SoftDeleted(items, userId, itemId)[k].active &&
              SoftDeleted(items, userId, itemId)[k].(active := true) == items[k].(active := true)
    ensures SoftDeleted(SoftDeleted(items, userId, itemId), userId, itemId) == SoftDeleted(items, userId, itemId)
    ensures OwnsItem(SoftDeleted(items, userId, itemId), userId, itemId) <==> OwnsItem(items, userId, itemId)
  {
    var r := SoftDeleted(items, userId, itemId);
    if OwnsItem(items, userId, itemId) {
      var k :| 0 <= k < |items| && items[k].id == itemId && items[k].userId == userId;
      assert r[k].id == itemId && r[k].userId == userId;
    }
    if OwnsItem(r, userId, itemId) {
      var k :| 0 <= k < |r| && r[k].id == itemId && r[k].userId == userId;
      assert items[k].id == itemId && items[k].userId == userId;
    }
  }

  /** A soft delete only lowers the count of its own user, by at most one row per match. */
  lemma {:induction false} SoftDeletedCount(items: seq<Item>, userId: nat, itemId: int, other: nat)
    ensures ActiveCount(SoftDeleted(items, userId, itemId), userId) <= ActiveCount(items, userId)
    ensures other != userId ==> ActiveCount(SoftDeleted(items, userId, itemId), other) == ActiveCount(items, other)
    decreases |items|
  {
    if items != [] {
      var r := SoftDeleted(items, userId, itemId);
      assert r[1..] == SoftDeleted(items[1..], userId, itemId);
      SoftDeletedCount(items[1..], userId, itemId, other);
    }
  }

  /**
   * Storing content sets the four columns of the row with this id and
   * nothing else; ownership and activity, hence every count, are kept.
   */
  lemma {:induction false} StoredEffect(items: seq<Item>, itemId: int, content: JsString, hash: JsValue, now: nat, userId: nat)
    ensures forall k :: 0 <= k < |items| && items[k].id != itemId ==> Stored(items, itemId, content, hash, now)[k] == items[k]
    ensures forall k :: 0 <= k < |items| && items[k].id == itemId ==>
              var x := Stored(items, itemId, content, hash, now)[k];
              x.lastContent == Some(content) && x.lastHash == Some(hash) &&
              x.lastChecked == Some(now) && x.lastUpdated == Some(now) &&
              x.(lastContent := items[k].lastContent, lastHash := items[k].lastHash,
                 lastChecked := items[k].lastChecked, lastUpdated := items[k].lastUpdated) == items[k]
    ensures ActiveCount(Stored(items, itemId, content, hash, now), userId) == ActiveCount(items, userId)
    decreases |items|
  {
    if items != [] {
      assert Stored(items, itemId, content, hash, now)[1..] == Stored(items[1..], itemId, content, hash, now);
      StoredEffect(items[1..], itemId, content, hash, now, userId);
    }
  }

  /** Touching a row sets only its last_checked; every count is kept. */
  lemma {:induction false} TouchedEffect(items: seq<Item>, itemId: int, now: nat, userId: nat)
    ensures forall k :: 0 <= k < |items| && items[k].id != itemId ==> Touched(items, itemId, now)[k] == items[k]
    ensures forall k :: 0 <= k < |items| && items[k].id == itemId ==>
              Touched(items, itemId, now)[k].lastChecked == Some(now) &&
              Touched(items, itemId, now)[k].(lastChecked := items[k].lastChecked) == items[k]
    ensures ActiveCount(Touched(items, itemId, now), userId) == ActiveCount(items, userId)
    decreases |items|
  {
    if items != [] {
      assert Touched(items, itemId, now)[1..] == Touched(items[1..], itemId, now);
      TouchedEffect(items[1..], itemId, now, userId);
    }
  }

  /** An insert adds one active row for its user and none for anybody else. */
  lemma InsertedCount(items: seq<Item>, userId: nat, url: JsString, xpath: JsString,
                      labelText: Option<JsString>, now: nat, other: nat)
    ensures ActiveCount(Inserted(items, userId, url, xpath, labelText, now), other) ==
              ActiveCount(items, other) + (if other == userId then 1 else 0)
  {
    ActiveCountSnoc(items, Item(|items| + 1, userId, url, xpath, labelText, None, None, None, None, now, true), other);
  }

  // ---------------------------------------------------------------------
  // The database

  class DatabaseManager {
    var users: seq<User>
    var items: seq<Item>
    /** Statements executed so far; the CURRENT_TIMESTAMP of the next one. */
    var clock: nat
    /** The error, if any, with which the statement numbered n rejects. */
    const fault: nat -> Option<JsString>

    predicate Valid()
      reads this
    {
      UsersValid(users) && ItemsValid(items)
    }

    constructor(fault: nat -> Option<JsString>)
      ensures Valid() && users == [] && items == [] && clock == 0 && this.fault == fault
    {
      users := [];
      items := [];
      clock := 0;
      this.fault := fault;
    }

    /**
     * getOrCreateUser: INSERT OR IGNORE, then SELECT by telegram id; either
     * statement may reject, and a rejected SELECT leaves the insert in place.
     */
    method GetOrCreateUser(telegramId: JsString, username: Option<JsString>,
                           firstName: Option<JsString>, lastName: Option<JsString>)
      returns (r: Completion<User>)
      requires Valid()
      modifies this
      ensures Valid() && items == old(items)
      ensures fault(old(clock)).Some? ==>
                r == Abrupt(fault(old(clock)).value) && users == old(users) && clock == old(clock) + 1
      ensures fault(old(clock)).None? ==>
                users == Registered(old(users), telegramId, OrElse(username, []), OrElse(firstName, []), OrElse(lastName, [])) &&
                clock == old(clock) + 2 && FindUser(users, telegramId).Some? &&
                r == (if fault(old(clock) + 1).Some? then Abrupt(fault(old(clock) + 1).value)
                      else Normal(FindUser(users, telegramId).value))
    {
      var e := fault(clock);
      clock := clock + 1;
      if e.Some? {
        return Abrupt(e.value);
      }
      RegisteredKeepsUsers(users, telegramId, OrElse(username, []), OrElse(firstName, []), OrElse(lastName, []));
      users := Registered(users, telegramId, OrElse(username, []), OrElse(firstName, []), OrElse(lastName, []));
      e := fault(clock);
      clock := clock + 1;
      if e.Some? {
        return Abrupt(e.value);
      }
      r := Normal(FindUser(users, telegramId).value);
    }

    /** addTrackingItem: the insert, answering the new row's id. */
    method AddTrackingItem(userId: nat, url: JsString, xpath: JsString, labelText: Option<JsString>)
      returns (r: Completion<nat>)
      requires Valid()
      modifies this
      ensures Valid() && users == old(users) && clock == old(clock) + 1
      ensures fault(old(clock)).Some? ==> r == Abrupt(fault(old(clock)).value) && items == old(items)
      ensures fault(old(clock)).None? ==>
                items == Inserted(old(items), userId, url, xpath, labelText, old(clock)) &&
                r == Normal(|items|) && items[|items| - 1].id == |items|
    {
      var e := fault(clock);
      var now := clock;
      clock := clock + 1;
      if e.Some? {
        return Abrupt(e.value);
      }
      items := Inserted(items, userId, url, xpath, labelText, now);
      r := Normal(|items|);
    }

    /** getUserTrackingItems. */
    method GetUserTrackingItems(userId: nat) returns (r: Completion<seq<Item>>)
      requires Valid()
      modifies this
      ensures Valid() && users == old(users) && items == old(items) && clock == old(clock) + 1
      ensures r == if fault(old(clock)).Some? then Abrupt(fault(old(clock)).value) else Normal(ListedFor(items, userId))
    {
      var e := fault(clock);
      clock := clock + 1;
      if e.Some? {
        return Abrupt(e.value);
      }
      r := Normal(ListedFor(items, userId));
    }

    /** deleteTrackingItem: true exactly when the UPDATE matched a row (`changes > 0`). */
    method DeleteTrackingItem(userId: nat, itemId: int) returns (r: Completion<bool>)
      requires Valid()
      modifies this
      ensures Valid() && users == old(users) && clock == old(clock) + 1
      ensures fault(old(clock)).Some? ==> r == Abrupt(fault(old(clock)).value) && items == old(items)
      ensures fault(old(clock)).None? ==>
                items == SoftDeleted(old(items), userId, itemId) && r == Normal(OwnsItem(old(items), userId, itemId))
    {
      var e := fault(clock);
      clock := clock + 1;
      if e.Some? {
        return Abrupt(e.value);
      }
      var matched := exists k :: 0 <= k < |items| && items[k].id == itemId && items[k].userId == userId;
      items := SoftDeleted(items, userId, itemId);
      r := Normal(matched);
    }

    /** getAllActiveTrackingItems. */
    method GetAllActiveTrackingItems() returns (r: Completion<seq<Row>>)
      requires Valid()
      modifies this
      ensures Valid() && users == old(users) && items == old(items) && clock == old(clock) + 1
      ensures r == if fault(old(clock)).Some? then Abrupt(fault(old(clock)).value) else Normal(Joined(items, users))
    {
      var e := fault(clock);
      clock := clock + 1;
      if e.Some? {
        return Abrupt(e.value);
      }
      r := Normal(Joined(items, users));
    }

    /** updateTrackingItem. */
    method UpdateTrackingItem(itemId: int, content: JsString, hash: JsValue) returns (r: Completion<()>)
      requires Valid()
      modifies this
      ensures Valid() && users == old(users) && clock == old(clock) + 1
      ensures fault(old(clock)).Some? ==> r == Abrupt(fault(old(clock)).value) && items == old(items)
      ensures fault(old(clock)).None? ==> r == Normal(()) && items == Stored(old(items), itemId, content, hash, old(clock))
    {
      var e := fault(clock);
      var now := clock;
      clock := clock + 1;
      if e.Some? {
        return Abrupt(e.value);
      }
      items := Stored(items, itemId, content, hash, now);
      r := Normal(());
    }

    /** updateLastChecked. */
    method UpdateLastChecked(itemId: int) returns (r: Completion<()>)
      requires Valid()
      modifies this
      ensures Valid() && users == old(users) && clock == old(clock) + 1
      ensures fault(old(clock)).Some? ==> r == Abrupt(fault(old(clock)).value) && items == old(items)
      ensures fault(old(clock)).None? ==> r == Normal(()) && items == Touched(old(items), itemId, old(clock))
    {
      var e := fault(clock);
      var now := clock;
      clock := clock + 1;
      if e.Some? {
        return Abrupt(e.value);
      }
      items := Touched(items, itemId, now);
      r := Normal(());
    }

    /** getUserTrackingItemsCount. */
    method GetUserTrackingItemsCount(userId: nat) returns (r: Completion<nat>)
      requires Valid()
      modifies this
      ensures Valid() && users == old(users) && items == old(items) && clock == old(clock) + 1
      ensures r == if fault(old(clock)).Some? then Abrupt(fault(old(clock)).value) else Normal(ActiveCount(items, userId))
    {
      var e := fault(clock);
      clock := clock + 1;
      if e.Some? {
        return Abrupt(e.value);
      }
      r := Normal(ActiveCount(items, userId));
    }
  }
}
