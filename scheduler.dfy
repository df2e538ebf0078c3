/**
 * handleScheduledCheck: one pass over a snapshot of the active tracking
 * items. Each item is re-extracted; a changed fingerprint is announced to
 * the owner before the row is updated; a failure in one item is answered
 * by refreshing its last_checked, and only a failure of that refresh ends
 * the pass. The pass is specified by pure functions over the combined
 * state of the database and the bot (Sys), and the methods are proved to
 * follow them.
 */
module Scheduler {
  import opened Js
  import Constants
  import opened Extractor
  import opened Storage
  import opened Telegram
  import opened Platform

  /** The world together with the failure schedules of the database and the bot. */
  datatype Env<!N> = Env(fault: nat -> Option<JsString>, network: nat -> Delivery, world: World<N>)

  /** The mutable state: the two tables, the statement clock, the outbox and the send counter. */
  datatype Sys = Sys(users: seq<User>, items: seq<Item>, clock: nat, outbox: seq<Message>, attempts: nat)

  /** The state after an operation attempt, and whether it threw. */
  datatype Step = Step(sys: Sys, threw: bool)

  /** The state after processing, and whether the pass was ended by an escaping error. */
  datatype Run = Run(sys: Sys, aborted: bool)

  const TrackedWebsite: JsString := Utf16("Tracked Website")

  /** The change rule: `item.last_hash && item.last_hash !== newHash`. */
  predicate ShouldNotify(lastHash: Option<JsValue>, newHash: JsValue)
    ensures ShouldNotify(lastHash, newHash) ==> lastHash.Some? && lastHash.value != newHash
    ensures lastHash == Some(Number(0)) ==> !ShouldNotify(lastHash, newHash)
  {
    Truthy(lastHash) && lastHash != Some(newHash)
  }

  /** Unchanged content never triggers a notice. */
  lemma SameContentNoNotice(content: JsString, lastHash: Option<JsValue>)
    requires lastHash == Some(HashContent(content))
    ensures !ShouldNotify(lastHash, HashContent(content))
  {
  }

  /**
   * A first observation (no stored hash) never notifies, and neither does
   * any observation after an empty baseline, whose stored hash is the
   * falsy number 0.
   */
  lemma BaselineNoNotice(newHash: JsValue)
    ensures !ShouldNotify(None, newHash)
    ensures !ShouldNotify(Some(HashContent([])), newHash)
  {
  }

  /**
   * After a non-empty baseline, a notice is sent exactly when the new
   * content is empty or its fold differs from the baseline's.
   */
  lemma NoticeIffFingerprintDiffers(baseline: JsString, content: JsString)
    requires baseline != []
    ensures ShouldNotify(Some(HashContent(baseline)), HashContent(content)) <==>
              content == [] || Fold(content) != Fold(baseline)
  {
    HashContentEqual(baseline, content);
    assert Truthy(Some(HashContent(baseline)));
  }

  /** The change notice for a snapshot row, sent to the owner's telegram id. */
  function ChangeNotice<N>(env: Env<N>, row: Row, content: JsString, now: nat): Message {
    Message(Str(row.telegramId),
            Text(Constants.ContentChanged(OrElse(row.item.labelText, TrackedWebsite), row.item.url, row.item.xpath,
                                          row.item.lastContent, content, env.world.showTime(now))),
            None)
  }

  // ---------------------------------------------------------------------
  // Single operations on Sys, matching the DatabaseManager and TelegramBot methods

  function TouchStep<N>(env: Env<N>, s: Sys, itemId: int): Step {
    if env.fault(s.clock).Some? then Step(s.(clock := s.clock + 1), true)
    else Step(s.(items := Touched(s.items, itemId, s.clock), clock := s.clock + 1), false)
  }

  function StoreStep<N>(env: Env<N>, s: Sys, itemId: int, content: JsString, hash: JsValue): Step {
    if env.fault(s.clock).Some? then Step(s.(clock := s.clock + 1), true)
    else Step(s.(items := Stored(s.items, itemId, content, hash, s.clock), clock := s.clock + 1), false)
  }

  function SendStep<N>(env: Env<N>, s: Sys, m: Message): Step {
    var d := env.network(s.attempts);
    Step(s.(outbox := Posted(s.outbox, d, m), attempts := s.attempts + 1), d.Fails?)
  }

  /** The per-item `catch`: refresh last_checked; an error there escapes and ends the pass. */
  function Recover<N>(env: Env<N>, st: Step, itemId: int): Run {
    if !st.threw then Run(st.sys, false)
    else
      var t := TouchStep(env, st.sys, itemId);
      Run(t.sys, t.threw)
  }

  /** The extraction for a snapshot row, with the page as fetched at the current clock. */
  function Observe<N>(env: Env<N>, s: Sys, row: Row): Option<JsString> {
    Extract(env.world.page(RequestFor(row.item.url), s.clock), env.world.dom, row.item.xpath)
  }

  /** What the body of the `for` loop does to one snapshot row. */
  function CheckItem<N>(env: Env<N>, s: Sys, row: Row): Run {
    Process(env, s, row, Observe(env, s, row))
  }

  /** The `try` block for extracted content: notify on a change, then store; a throw skips the rest. */
  function Deliver<N>(env: Env<N>, s: Sys, row: Row, content: JsString): (r: Step)
    ensures r.sys.users == s.users && |r.sys.items| == |s.items| && s.clock <= r.sys.clock
    ensures s.outbox <= r.sys.outbox
    ensures !ShouldNotify(row.item.lastHash, HashContent(content)) ==>
              r.sys.outbox == s.outbox && r.sys.attempts == s.attempts
  {
    var newHash := HashContent(content);
    var sent := if ShouldNotify(row.item.lastHash, newHash)
                then SendStep(env, s, ChangeNotice(env, row, content, s.clock))
                else Step(s, false);
    if sent.threw then sent else StoreStep(env, sent.sys, row.item.id, content, newHash)
  }

  /** The body of the `for` loop once the extraction has produced `content`. */
  function Process<N>(env: Env<N>, s: Sys, row: Row, content: Option<JsString>): (r: Run)
    ensures r.sys.users == s.users && |r.sys.items| == |s.items| && s.clock <= r.sys.clock
    ensures s.outbox <= r.sys.outbox
    ensures content.None? ==> r.sys.outbox == s.outbox && r.sys.attempts == s.attempts
  {
    var id := row.item.id;
    if content.None? then Recover(env, TouchStep(env, s, id), id)
    else Recover(env, Deliver(env, s, row, content.value), id)
  }

  /** The rows processed in order until an error escapes. */
  function Sweep<N>(env: Env<N>, s: Sys, rows: seq<Row>): (r: Run)
    ensures r.sys.users == s.users && |r.sys.items| == |s.items| && s.clock <= r.sys.clock
    ensures s.outbox <= r.sys.outbox
    decreases |rows|
  {
    if rows == [] then Run(s, false)
    else
      var r := CheckItem(env, s, rows[0]);
      if r.aborted then r else Sweep(env, r.sys, rows[1..])
  }

  /** The whole handler: take the snapshot, then sweep; a failing snapshot query does nothing more. */
  function ScheduledCheck<N>(env: Env<N>, s: Sys): (r: Run)
    ensures r.sys.users == s.users && |r.sys.items| == |s.items| && s.clock < r.sys.clock
    ensures s.outbox <= r.sys.outbox
    ensures env.fault(s.clock).Some? ==> r.aborted && r.sys.items == s.items && r.sys.outbox == s.outbox
  {
    if env.fault(s.clock).Some? then Run(s.(clock := s.clock + 1), true)
    else Sweep(env, s.(clock := s.clock + 1), Joined(s.items, s.users))
  }

  // ---------------------------------------------------------------------
  // Properties of one item, for any extraction result

  /**
   * Whatever fails, a null extraction sends nothing and changes no column
   * but that item's last_checked.
   */
  lemma NullExtractionTouchesOnlyLastChecked<N>(env: Env<N>, s: Sys, row: Row)
    ensures var r := Process(env, s, row, None).sys;
      r.users == s.users && r.outbox == s.outbox && r.attempts == s.attempts && |r.items| == |s.items| &&
      forall k :: 0 <= k < |s.items| ==>
        r.items[k] == s.items[k] ||
        (s.items[k].id == row.item.id && r.items[k].lastChecked.Some? &&
         r.items[k] == s.items[k].(lastChecked := r.items[k].lastChecked))
  {
    TouchedEffect(s.items, row.item.id, s.clock, 0);
    TouchedEffect(s.items, row.item.id, s.clock + 1, 0);
  }

  /**
   * When the extraction yields content and the update succeeds, the row
   * gets the content, its fingerprint and both timestamps, also when the
   * fingerprint is the stored one.
   */
  lemma ContentIsAlwaysStored<N>(env: Env<N>, s: Sys, row: Row, content: JsString)
    requires !ShouldNotify(row.item.lastHash, HashContent(content)) || !env.network(s.attempts).Fails?
    requires env.fault(s.clock).None?
    ensures var r := Process(env, s, row, Some(content));
      !r.aborted && r.sys.items == Stored(s.items, row.item.id, content, HashContent(content), s.clock) &&
      r.sys.clock == s.clock + 1
  {
  }

  /**
   * Exactly one notice, to the owner and carrying the stored and the new
   * content, is delivered iff the extraction yields content, the change
   * rule holds and the Bot API accepts it; one send is attempted iff the
   * extraction yields content and the rule holds.
   */
  lemma NoticeIff<N>(env: Env<N>, s: Sys, row: Row, content: Option<JsString>)
    ensures var r := Process(env, s, row, content).sys;
      var notify := content.Some? && ShouldNotify(row.item.lastHash, HashContent(content.value));
      (r.attempts == s.attempts + (if notify then 1 else 0)) &&
      (notify && env.network(s.attempts) == Delivered ==>
         r.outbox == s.outbox + [ChangeNotice(env, row, content.value, s.clock)]) &&
      (!(notify && env.network(s.attempts) == Delivered) ==> r.outbox == s.outbox)
  {
  }

  /**
   * The notice goes out before the update: when sending fails, the stored
   * content and fingerprint stay as they were, and at most last_checked
   * changes.
   */
  lemma SendFailureKeepsContent<N>(env: Env<N>, s: Sys, row: Row, content: JsString)
    requires ShouldNotify(row.item.lastHash, HashContent(content))
    requires env.network(s.attempts).Fails?
    ensures var r := Process(env, s, row, Some(content)).sys;
      r.outbox == s.outbox && |r.items| == |s.items| &&
      (r.items == s.items || r.items == Touched(s.items, row.item.id, s.clock))
  {
  }

  /**
   * Every row with this id has a last_checked stamped by a statement whose
   * clock value lies in [lo, hi).
   */
  predicate CheckedWithin(items: seq<Item>, itemId: int, lo: nat, hi: nat) {
    forall k :: 0 <= k < |items| && items[k].id == itemId ==>
      items[k].lastChecked.Some? && lo <= items[k].lastChecked.value < hi
  }

  lemma CheckedWithinWiden(items: seq<Item>, itemId: int, lo: nat, hi: nat, lo': nat, hi': nat)
    requires lo' <= lo && hi <= hi' && CheckedWithin(items, itemId, lo, hi)
    ensures CheckedWithin(items, itemId, lo', hi')
  {
  }

  /** Touching a row stamps it with the statement's time, and keeps earlier stamps of other rows. */
  lemma TouchedChecked(items: seq<Item>, itemId: int, now: nat, other: int, lo: nat)
    requires lo <= now
    ensures CheckedWithin(Touched(items, itemId, now), itemId, now, now + 1)
    ensures CheckedWithin(items, other, lo, now) ==> CheckedWithin(Touched(items, itemId, now), other, lo, now + 1)
  {
  }

  /** Storing content stamps the row with the statement's time, and keeps earlier stamps of other rows. */
  lemma StoredChecked(items: seq<Item>, itemId: int, content: JsString, hash: JsValue, now: nat,
                      other: int, lo: nat)
    requires lo <= now
    ensures CheckedWithin(Stored(items, itemId, content, hash, now), itemId, now, now + 1)
    ensures CheckedWithin(items, other, lo, now) ==>
              CheckedWithin(Stored(items, itemId, content, hash, now), other, lo, now + 1)
  {
  }

  /** A touch stamps its row unless it throws, keeps earlier stamps, and advances the clock by one. */
  lemma TouchStepChecked<N>(env: Env<N>, s: Sys, itemId: int, other: int, t: nat)
    requires t <= s.clock
    ensures var st := TouchStep(env, s, itemId).sys;
      st.clock == s.clock + 1 &&
      (!TouchStep(env, s, itemId).threw ==> CheckedWithin(st.items, itemId, s.clock, st.clock)) &&
      (CheckedWithin(s.items, other, t, s.clock) ==> CheckedWithin(st.items, other, t, st.clock))
  {
    TouchedChecked(s.items, itemId, s.clock, other, t);
    if CheckedWithin(s.items, other, t, s.clock) {
      CheckedWithinWiden(s.items, other, t, s.clock, t, s.clock + 1);
    }
  }

  /** The `try` block stamps its row unless it throws, and keeps earlier stamps. */
  lemma DeliverChecked<N>(env: Env<N>, s: Sys, row: Row, content: JsString, other: int, t: nat)
    requires t <= s.clock
    ensures var st := Deliver(env, s, row, content);
      s.clock <= st.sys.clock &&
      (!st.threw ==> CheckedWithin(st.sys.items, row.item.id, s.clock, st.sys.clock)) &&
      (CheckedWithin(s.items, other, t, s.clock) ==> CheckedWithin(st.sys.items, other, t, st.sys.clock))
  {
    var newHash := HashContent(content);
    var sent := if ShouldNotify(row.item.lastHash, newHash)
                then SendStep(env, s, ChangeNotice(env, row, content, s.clock))
                else Step(s, false);
    assert sent.sys.items == s.items && sent.sys.clock == s.clock;
    StoredChecked(s.items, row.item.id, content, newHash, s.clock, other, t);
    if CheckedWithin(s.items, other, t, s.clock) {
      CheckedWithinWiden(s.items, other, t, s.clock, t, s.clock + 1);
    }
  }

  /** The per-item `catch` stamps the row when its touch succeeds, and keeps earlier stamps. */
  lemma RecoverChecked<N>(env: Env<N>, st: Step, itemId: int, lo: nat, other: int, t: nat)
    requires lo <= st.sys.clock && t <= st.sys.clock
    requires !st.threw ==> CheckedWithin(st.sys.items, itemId, lo, st.sys.clock)
    ensures var r := Recover(env, st, itemId);
      st.sys.clock <= r.sys.clock &&
      (!r.aborted ==> CheckedWithin(r.sys.items, itemId, lo, r.sys.clock)) &&
      (CheckedWithin(st.sys.items, other, t, st.sys.clock) ==> CheckedWithin(r.sys.items, other, t, r.sys.clock))
  {
    if st.threw {
      var c := st.sys.clock;
      TouchStepChecked(env, st.sys, itemId, other, t);
      if !TouchStep(env, st.sys, itemId).threw {
        CheckedWithinWiden(TouchStep(env, st.sys, itemId).sys.items, itemId, c, c + 1, lo, c + 1);
      }
    }
  }

  /**
   * An item processed without an escaping error has a last_checked stamped
   * by one of this check's own statements, and every stamp written before
   * the check is kept, whether or not an error escaped.
   */
  lemma ProcessRefreshes<N>(env: Env<N>, s: Sys, row: Row, content: Option<JsString>, other: int, t: nat)
    requires t <= s.clock
    ensures var r := Process(env, s, row, content);
      s.clock <= r.sys.clock &&
      (!r.aborted ==> CheckedWithin(r.sys.items, row.item.id, s.clock, r.sys.clock)) &&
      (CheckedWithin(s.items, other, t, s.clock) ==> CheckedWithin(r.sys.items, other, t, r.sys.clock))
  {
    var id := row.item.id;
    var st := if content.None? then TouchStep(env, s, id) else Deliver(env, s, row, content.value);
    if content.None? {
      TouchStepChecked(env, s, id, other, t);
    } else {
      DeliverChecked(env, s, row, content.value, other, t);
    }
    RecoverChecked(env, st, id, s.clock, other, t);
  }

  /** Rows with another id are left as they were. */
  lemma ProcessFrame<N>(env: Env<N>, s: Sys, row: Row, content: Option<JsString>, k: nat)
    requires k < |s.items| && row.item.id != s.items[k].id
    ensures var r := Process(env, s, row, content).sys;
      r.users == s.users && |r.items| == |s.items| && r.items[k] == s.items[k]
  {
    var id := row.item.id;
    if content.Some? {
      var st := Stored(s.items, id, content.value, HashContent(content.value), s.clock);
      assert st[k] == s.items[k];
    }
  }

  // ---------------------------------------------------------------------
  // Properties of the pass

  /** Processing a + b is processing a, then b unless an error escaped. */
  lemma {:induction false} SweepAppend<N>(env: Env<N>, s: Sys, a: seq<Row>, b: seq<Row>)
    ensures Sweep(env, s, a + b) ==
              var r := Sweep(env, s, a); if r.aborted then r else Sweep(env, r.sys, b)
    decreases |a|
  {
    if a == [] {
      assert a + b == b;
    } else {
      assert (a + b)[0] == a[0];
      assert (a + b)[1..] == a[1..] + b;
      var r := CheckItem(env, s, a[0]);
      if !r.aborted {
        SweepAppend(env, r.sys, a[1..], b);
      }
    }
  }

  /**
   * Failure isolation for one item: when its `try` block throws, the `catch`
   * runs updateLastChecked on the state the throw left, and the error
   * escapes only when that statement rejects too.
   */
  lemma ProcessAbortsIff<N>(env: Env<N>, s: Sys, row: Row, content: Option<JsString>)
    ensures var st := if content.None? then TouchStep(env, s, row.item.id) else Deliver(env, s, row, content.value);
      var r := Process(env, s, row, content);
      (r.aborted <==> st.threw && env.fault(st.sys.clock).Some?) &&
      (st.threw ==> r.sys == TouchStep(env, st.sys, row.item.id).sys) &&
      (!st.threw ==> r.sys == st.sys)
  {
  }

  /** An item whose check ends without an escaping error lets the pass go on to the next row. */
  lemma SweepContinues<N>(env: Env<N>, s: Sys, rows: seq<Row>)
    requires rows != [] && !CheckItem(env, s, rows[0]).aborted
    ensures Sweep(env, s, rows) == Sweep(env, CheckItem(env, s, rows[0]).sys, rows[1..])
  {
  }

  /**
   * A pass ends early exactly when the check of some row aborts, every
   * earlier row's check having finished; that is, only an error escaping
   * a per-item `catch` ends the pass.
   */
  lemma {:induction false} SweepAbortsIff<N>(env: Env<N>, s: Sys, rows: seq<Row>)
    ensures Sweep(env, s, rows).aborted <==>
              exists i :: 0 <= i < |rows| && !Sweep(env, s, rows[..i]).aborted &&
                          CheckItem(env, Sweep(env, s, rows[..i]).sys, rows[i]).aborted
    decreases |rows|
  {
    if rows != [] {
      assert rows[..0] == [];
      var c := CheckItem(env, s, rows[0]);
      if c.aborted {
        assert !Sweep(env, s, rows[..0]).aborted && CheckItem(env, Sweep(env, s, rows[..0]).sys, rows[0]).aborted;
      } else {
        SweepAbortsIff(env, c.sys, rows[1..]);
        forall i | 1 <= i <= |rows|
          ensures Sweep(env, s, rows[..i]) == Sweep(env, c.sys, rows[1..][..i - 1])
        {
          assert rows[..i][0] == rows[0] && rows[..i][1..] == rows[1..][..i - 1];
        }
        if Sweep(env, s, rows).aborted {
          var j :| 0 <= j < |rows| - 1 && !Sweep(env, c.sys, rows[1..][..j]).aborted &&
                   CheckItem(env, Sweep(env, c.sys, rows[1..][..j]).sys, rows[1..][j]).aborted;
          assert !Sweep(env, s, rows[..j + 1]).aborted && CheckItem(env, Sweep(env, s, rows[..j + 1]).sys, rows[j + 1]).aborted;
        } else {
          forall i | 0 <= i < |rows| && !Sweep(env, s, rows[..i]).aborted
            ensures !CheckItem(env, Sweep(env, s, rows[..i]).sys, rows[i]).aborted
          {
            if i > 0 {
              assert rows[1..][i - 1] == rows[i];
            }
          }
        }
      }
    }
  }

  /**
   * Failure isolation: a pass that ends without an escaping error has
   * stamped last_checked of every row in the snapshot with one of the
   * pass's own statements.
   */
  lemma {:induction false} SweepRefreshesAll<N>(env: Env<N>, s: Sys, rows: seq<Row>)
    ensures var r := Sweep(env, s, rows);
      !r.aborted ==> forall j :: 0 <= j < |rows| ==> CheckedWithin(r.sys.items, rows[j].item.id, s.clock, r.sys.clock)
    decreases |rows|
  {
    if rows != [] {
      var c := CheckItem(env, s, rows[0]);
      if !c.aborted {
        SweepRefreshesAll(env, c.sys, rows[1..]);
        ProcessRefreshes(env, s, rows[0], Observe(env, s, rows[0]), 0, s.clock);
        SweepKeepsChecked(env, c.sys, rows[1..], rows[0].item.id, s.clock);
        var r := Sweep(env, c.sys, rows[1..]);
        assert Sweep(env, s, rows) == r;
        assert c.sys.clock >= s.clock;
        forall j | 1 <= j < |rows| && !r.aborted
          ensures CheckedWithin(r.sys.items, rows[j].item.id, s.clock, r.sys.clock)
        {
          assert rows[j] == rows[1..][j - 1];
          assert CheckedWithin(r.sys.items, rows[1..][j - 1].item.id, c.sys.clock, r.sys.clock);
          CheckedWithinWiden(r.sys.items, rows[j].item.id, c.sys.clock, r.sys.clock, s.clock, r.sys.clock);
        }
      }
    }
  }

  /** A stamp written before a pass is kept through it. */
  lemma {:induction false} SweepKeepsChecked<N>(env: Env<N>, s: Sys, rows: seq<Row>, itemId: int, t: nat)
    requires t <= s.clock && CheckedWithin(s.items, itemId, t, s.clock)
    ensures var r := Sweep(env, s, rows).sys; s.clock <= r.clock && CheckedWithin(r.items, itemId, t, r.clock)
    decreases |rows|
  {
    if rows != [] {
      var c := CheckItem(env, s, rows[0]);
      ProcessRefreshes(env, s, rows[0], Observe(env, s, rows[0]), itemId, t);
      if !c.aborted {
        SweepKeepsChecked(env, c.sys, rows[1..], itemId, t);
      }
    }
  }

  /** Rows whose id is not in the snapshot, and the users table, are left as they were. */
  lemma {:induction false} SweepFrame<N>(env: Env<N>, s: Sys, rows: seq<Row>, k: nat)
    requires k < |s.items| && forall j :: 0 <= j < |rows| ==> rows[j].item.id != s.items[k].id
    ensures var r := Sweep(env, s, rows).sys;
      r.users == s.users && |r.items| == |s.items| && r.items[k] == s.items[k]
    decreases |rows|
  {
    if rows != [] {
      var c := CheckItem(env, s, rows[0]);
      ProcessFrame(env, s, rows[0], Observe(env, s, rows[0]), k);
      if !c.aborted {
        SweepFrame(env, c.sys, rows[1..], k);
      }
    }
  }

  /** Checking an item never activates or deactivates a row, so no user's count of active items changes. */
  lemma ProcessKeepsCounts<N>(env: Env<N>, s: Sys, row: Row, content: Option<JsString>, userId: nat)
    ensures ActiveCount(Process(env, s, row, content).sys.items, userId) == ActiveCount(s.items, userId)
  {
    var id := row.item.id;
    var st := if content.None? then TouchStep(env, s, id) else Deliver(env, s, row, content.value);
    if content.None? {
      TouchedEffect(s.items, id, s.clock, userId);
    } else {
      DeliverKeepsCounts(env, s, row, content.value, userId);
    }
    TouchedEffect(st.sys.items, id, st.sys.clock, userId);
  }

  lemma DeliverKeepsCounts<N>(env: Env<N>, s: Sys, row: Row, content: JsString, userId: nat)
    ensures ActiveCount(Deliver(env, s, row, content).sys.items, userId) == ActiveCount(s.items, userId)
  {
    StoredEffect(s.items, row.item.id, content, HashContent(content), s.clock, userId);
  }

  /** Neither does a pass over any rows. */
  lemma {:induction false} SweepKeepsCounts<N>(env: Env<N>, s: Sys, rows: seq<Row>, userId: nat)
    ensures ActiveCount(Sweep(env, s, rows).sys.items, userId) == ActiveCount(s.items, userId)
    decreases |rows|
  {
    if rows != [] {
      var c := CheckItem(env, s, rows[0]);
      ProcessKeepsCounts(env, s, rows[0], Observe(env, s, rows[0]), userId);
      if !c.aborted {
        SweepKeepsCounts(env, c.sys, rows[1..], userId);
      }
    }
  }

  /** The scheduled check leaves every user's count of active items, hence the /add limit, as it was. */
  lemma ScheduledCheckKeepsCounts<N>(env: Env<N>, s: Sys, userId: nat)
    ensures ActiveCount(ScheduledCheck(env, s).sys.items, userId) == ActiveCount(s.items, userId)
  {
    if env.fault(s.clock).None? {
      ScheduledCheckSweeps(env, s);
      SweepKeepsCounts(env, s.(clock := s.clock + 1), Joined(s.items, s.users), userId);
    } else {
      ScheduledCheckRejected(env, s);
    }
  }

  // ---------------------------------------------------------------------
  // The handler

  function Snapshot(db: DatabaseManager, bot: TelegramBot): Sys
    reads db, bot
  {
    Sys(db.users, db.items, db.clock, bot.outbox, bot.attempts)
  }

  /** The body of the loop for one snapshot row; answers whether an error escaped. */
  method CheckOne<N>(db: DatabaseManager, bot: TelegramBot, w: World<N>, row: Row) returns (aborted: bool)
    requires db.Valid()
    modifies db, bot
    ensures db.Valid()
    ensures Run(Snapshot(db, bot), aborted) == CheckItem(Env(db.fault, bot.network, w), old(Snapshot(db, bot)), row)
  {
    var content := Extract(w.page(RequestFor(row.item.url), db.clock), w.dom, row.item.xpath);
    aborted := ProcessOne(db, bot, w, row, content);
  }

  /** The body of the loop once the extraction has produced `content`. */
  method ProcessOne<N>(db: DatabaseManager, bot: TelegramBot, w: World<N>, row: Row, content: Option<JsString>)
    returns (aborted: bool)
    requires db.Valid()
    modifies db, bot
    ensures db.Valid()
    ensures Run(Snapshot(db, bot), aborted) == Process(Env(db.fault, bot.network, w), old(Snapshot(db, bot)), row, content)
  {
    var failed;
    if content.None? {
      var u := db.UpdateLastChecked(row.item.id);
      failed := u.Abrupt?;
    } else {
      failed := DeliverOne(db, bot, w, row, content.value);
    }
    aborted := false;
    if failed {
      var u := db.UpdateLastChecked(row.item.id);
      aborted := u.Abrupt?;
    }
  }

  /** The `try` block for extracted content; answers whether it threw. */
  method DeliverOne<N>(db: DatabaseManager, bot: TelegramBot, w: World<N>, row: Row, content: JsString)
    returns (failed: bool)
    requires db.Valid()
    modifies db, bot
    ensures db.Valid()
    ensures Step(Snapshot(db, bot), failed) == Deliver(Env(db.fault, bot.network, w), old(Snapshot(db, bot)), row, content)
  {
    failed := false;
    var newHash := ComputeHash(content);
    if ShouldNotify(row.item.lastHash, newHash) {
      var labelText := OrElse(row.item.labelText, TrackedWebsite);
      var text := Constants.ContentChanged(labelText, row.item.url, row.item.xpath, row.item.lastContent,
                                           content, w.showTime(db.clock));
      var sent := bot.SendMessage(Str(row.telegramId), Text(text), None);
      failed := sent.Abrupt?;
    }
    if !failed {
      var u := db.UpdateTrackingItem(row.item.id, content, newHash);
      failed := u.Abrupt?;
    }
  }

  /** handleScheduledCheck. */
  method HandleScheduledCheck<N>(db: DatabaseManager, bot: TelegramBot, w: World<N>)
    requires db.Valid()
    modifies db, bot
    ensures db.Valid()
    ensures Snapshot(db, bot) == ScheduledCheck(Env(db.fault, bot.network, w), old(Snapshot(db, bot))).sys
  {
    ghost var env := Env(db.fault, bot.network, w);
    ghost var s0 := Snapshot(db, bot);
    var all := db.GetAllActiveTrackingItems();
    assert Snapshot(db, bot) == s0.(clock := s0.clock + 1);
    if all.Abrupt? {
      ScheduledCheckRejected(env, s0);
      return;
    }
    ScheduledCheckSweeps(env, s0);
    var _ := SweepRows(db, bot, w, all.value);
  }

  /** A rejecting snapshot query only moves the clock. */
  lemma ScheduledCheckRejected<N>(env: Env<N>, s: Sys)
    requires env.fault(s.clock).Some?
    ensures ScheduledCheck(env, s).sys == s.(clock := s.clock + 1)
  {
  }

  /** Otherwise the handler is a pass over the snapshot the query answers. */
  lemma ScheduledCheckSweeps<N>(env: Env<N>, s: Sys)
    requires env.fault(s.clock).None?
    ensures ScheduledCheck(env, s) == Sweep(env, s.(clock := s.clock + 1), Joined(s.items, s.users))
  {
  }

  /** The `for` loop over the snapshot; answers whether an error escaped and ended it. */
  method SweepRows<N>(db: DatabaseManager, bot: TelegramBot, w: World<N>, rows: seq<Row>) returns (aborted: bool)
    requires db.Valid()
    modifies db, bot
    ensures db.Valid()
    ensures Run(Snapshot(db, bot), aborted) == Sweep(Env(db.fault, bot.network, w), old(Snapshot(db, bot)), rows)
  {
    ghost var env := Env(db.fault, bot.network, w);
    ghost var s1 := Snapshot(db, bot);
    var i := 0;
    aborted := false;
    assert rows[0..] == rows;
    while i < |rows| && !aborted
      invariant 0 <= i <= |rows|
      invariant db.Valid()
      invariant Sweep(env, s1, rows) ==
                  if aborted then Run(Snapshot(db, bot), true) else Sweep(env, Snapshot(db, bot), rows[i..])
      decreases |rows| - i
    {
      SweepUnfold(env, Snapshot(db, bot), rows, i);
      aborted := CheckOne(db, bot, w, rows[i]);
      i := i + 1;
    }
  }

  /** One more row of the pass: its check, then the rest unless an error escaped. */
  lemma SweepUnfold<N>(env: Env<N>, s: Sys, rows: seq<Row>, i: nat)
    requires i < |rows|
    ensures Sweep(env, s, rows[i..]) ==
              var r := CheckItem(env, s, rows[i]); if r.aborted then r else Sweep(env, r.sys, rows[i + 1..])
  {
    assert rows[i..][0] == rows[i] && rows[i..][1..] == rows[i + 1..];
  }
}
