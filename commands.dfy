/**
 * CommandHandler and handleTelegramUpdate: tokenising a command message,
 * validating and creating a tracking item (/add), deleting one (/delete),
 * listing (/list, /status), and dispatching on the command word. A call
 * that throws answers Abrupt(message), as the awaited promise would reject.
 */
module Commands {
  import opened Js
  import opened Constants
  import opened Extractor
  import opened Storage
  import opened Telegram
  import opened Platform
  import opened Render

  /** `message.from`. */
  datatype From = From(id: int, username: Option<JsString>, firstName: Option<JsString>, lastName: Option<JsString>)

  /** `update.message`: its id, its chat's id, the sender (absent for channel posts) and the text. */
  datatype Incoming = Incoming(messageId: int, chatId: int, from: Option<From>, text: Option<JsString>)

  datatype Update = Update(message: Option<Incoming>)

  /** The message of the error a missing `from` raises at `user.id`. */
  const MissingSender: JsString := Utf16("Cannot read properties of undefined (reading 'id')")

  /** The message of withTimeout's rejection, which selects the REQUEST_TIMEOUT reply. */
  const RequestTimeoutError: JsString := Utf16("Request timeout")

  // ---------------------------------------------------------------------
  // Tokens

  /** `text.split(' ')`: pieces between single spaces, so runs of spaces give empty pieces. */
  function Words(text: JsString): (r: seq<JsString>)
    ensures |r| >= 1
  {
    Split(text, Space)
  }

  /** `const [command, ...args] = text.split(' ')`: the arguments. */
  function Args(text: JsString): (r: seq<JsString>)
    ensures forall k :: 0 <= k < |r| ==> Space !in r[k]
  {
    Words(text)[1..]
  }

  /** There are as many arguments as spaces in the text. */
  lemma ArgsCount(text: JsString)
    ensures |Args(text)| == multiset(text)[Space]
  {
    SplitLength(text, Space);
  }

  /** `args.slice(2).join(' ') || null`. */
  function Label(args: seq<JsString>): (r: Option<JsString>)
    ensures |args| <= 2 ==> r.None?
    ensures r.Some? ==> r.value != []
  {
    var joined := if |args| <= 2 then [] else Join(args[2..], [Space]);
    if joined == [] then None else Some(joined)
  }

  /**
   * The URL and the selector are the words after the command, and the
   * label is everything after the third space, kept verbatim (runs of
   * spaces included); an empty remainder is no label.
   */
  lemma LabelIsTextAfterSelector(command: JsString, url: JsString, xpath: JsString, rest: JsString)
    requires Space !in command && Space !in url && Space !in xpath
    ensures var args := Args(command + [Space] + url + [Space] + xpath + [Space] + rest);
      |args| >= 2 && args[0] == url && args[1] == xpath &&
      Label(args) == if rest == [] then None else Some(rest)
  {
    var t3 := xpath + [Space] + rest;
    var t2 := url + [Space] + t3;
    var text := command + [Space] + url + [Space] + xpath + [Space] + rest;
    assert text == command + [Space] + t2;
    SplitAtFirst(command, t2, Space);
    SplitAtFirst(url, t3, Space);
    SplitAtFirst(xpath, rest, Space);
    var args := Args(text);
    assert args == [url, xpath] + Split(rest, Space);
    assert args[2..] == Split(rest, Space);
    JoinSplit(rest, Space);
  }

  datatype Command = OnStart | OnAdd | OnList | OnStatus | OnDelete | OnHelp | OnOther

  const StartWord: JsString := Utf16("/start")
  const AddWord: JsString := Utf16("/add")
  const ListWord: JsString := Utf16("/list")
  const StatusWord: JsString := Utf16("/status")
  const DeleteWord: JsString := Utf16("/delete")
  const HelpWord: JsString := Utf16("/help")

  /** The six command words are pairwise different, so each `case` of the `switch` catches one word. */
  lemma CommandWordsDistinct()
    ensures |{StartWord, AddWord, ListWord, StatusWord, DeleteWord, HelpWord}| == 6
  {
    Utf16Bmp("/start");
    Utf16Bmp("/add");
    Utf16Bmp("/list");
    Utf16Bmp("/status");
    Utf16Bmp("/delete");
    Utf16Bmp("/help");
    assert |StartWord| == 6 && |AddWord| == 4 && |ListWord| == 5 && |HelpWord| == 5;
    assert |StatusWord| == 7 && |DeleteWord| == 7;
    assert ListWord[1] != HelpWord[1] && StatusWord[1] != DeleteWord[1];
  }

  /** The `switch (command)` of handleTelegramUpdate: exact comparison with each word. */
  function Classify(word: JsString): (r: Command)
    ensures r.OnOther? <==> word !in {StartWord, AddWord, ListWord, StatusWord, DeleteWord, HelpWord}
    ensures r.OnStart? <==> word == StartWord
    ensures r.OnAdd? <==> word == AddWord
    ensures r.OnList? <==> word == ListWord
    ensures r.OnStatus? <==> word == StatusWord
    ensures r.OnDelete? <==> word == DeleteWord
    ensures r.OnHelp? <==> word == HelpWord
  {
    CommandWordsDistinct();
    if word == StartWord then OnStart
    else if word == AddWord then OnAdd
    else if word == ListWord then OnList
    else if word == StatusWord then OnStatus
    else if word == DeleteWord then OnDelete
    else if word == HelpWord then OnHelp
    else OnOther
  }

  /**
   * A text's command word is `word` exactly when the text is the word alone
   * or the word followed by a space: `/add\nx` or `/add@bot` are other words.
   */
  lemma CommandWordIff(text: JsString, word: JsString)
    requires Space !in word
    ensures Words(text)[0] == word <==> text == word || word + [Space] <= text
  {
    SplitHead(text, Space);
    if text == word {
      SplitWithout(word, Space);
    } else if word + [Space] <= text {
      var rest := text[|word| + 1..];
      assert text == word + [Space] + rest;
      SplitAtFirst(word, rest, Space);
    }
  }

  // ---------------------------------------------------------------------
  // Users

  /** `user.id.toString()`, the telegram_id a sender is stored under. */
  function TelegramIdOf(user: From): JsString {
    NumberToString(user.id)
  }

  /** The users table after getOrCreateUser for this sender (missing names stored as ''). */
  function Enrolled(users: seq<User>, user: From): seq<User> {
    Registered(users, TelegramIdOf(user), OrElse(user.username, []), OrElse(user.firstName, []), OrElse(user.lastName, []))
  }

  /** The id getOrCreateUser answers for this sender. */
  function EnrolledId(users: seq<User>, user: From): nat {
    match FindUser(users, TelegramIdOf(user))
    case Some(u) => u.id
    case None => |users| + 1
  }

  /** The row getOrCreateUser reads back is the sender's row, existing or new. */
  lemma EnrolledIdFound(users: seq<User>, user: From)
    requires UsersValid(users)
    ensures FindUser(Enrolled(users, user), TelegramIdOf(user)).Some?
    ensures FindUser(Enrolled(users, user), TelegramIdOf(user)).value.id == EnrolledId(users, user)
  {
    RegisteredKeepsUsers(users, TelegramIdOf(user), OrElse(user.username, []), OrElse(user.firstName, []), OrElse(user.lastName, []));
  }


  /** The statements numbered c, ..., c + n - 1 all succeed. */
  predicate NoFaults(fault: nat -> Option<JsString>, c: nat, n: nat) {
    forall k :: c <= k < c + n ==> fault(k).None?
  }

  /** A reply: to the message's chat, quoting the message. */
  function ReplyTo(msg: Incoming, body: Body): Message {
    Message(Number(msg.chatId), body, Some(msg.messageId))
  }

  /** The messages appended to `before` are all replies to msg. */
  predicate RepliesOnly(before: seq<Message>, after: seq<Message>, msg: Incoming) {
    before <= after &&
    forall k :: |before| <= k < |after| ==> after[k].chat == Number(msg.chatId) && after[k].replyTo == Some(msg.messageId)
  }

  /** The error, if any, that a send with this delivery throws. */
  function Thrown(d: Delivery): (r: Option<JsString>)
    ensures r.Some? <==> d.Fails?
  {
    if d.Fails? then Some(d.message) else None
  }

  /** getOrCreateUser for the sender. */
  method Enroll(db: DatabaseManager, user: From) returns (r: Completion<User>)
    requires db.Valid()
    modifies db
    ensures db.Valid() && db.items == old(db.items)
    ensures db.users == old(db.users) || db.users == Enrolled(old(db.users), user)
    ensures r.Normal? <==> NoFaults(db.fault, old(db.clock), 2)
    ensures db.fault(old(db.clock)).None? ==> db.users == Enrolled(old(db.users), user) && db.clock == old(db.clock) + 2
    ensures r.Normal? ==> r.value.id == EnrolledId(old(db.users), user) && db.clock == old(db.clock) + 2
  {
    EnrolledIdFound(db.users, user);
    r := db.GetOrCreateUser(TelegramIdOf(user), user.username, user.firstName, user.lastName);
  }

  // ---------------------------------------------------------------------
  // /start and /help

  /** handleStart. */
  method HandleStart(db: DatabaseManager, bot: TelegramBot, msg: Incoming, user: From) returns (r: Completion<()>)
    requires db.Valid()
    modifies db, bot
    ensures db.Valid() && db.items == old(db.items)
    ensures db.users == old(db.users) || db.users == Enrolled(old(db.users), user)
    ensures RepliesOnly(old(bot.outbox), bot.outbox, msg)
    ensures !NoFaults(db.fault, old(db.clock), 2) ==> r.Abrupt? && bot.outbox == old(bot.outbox)
    ensures NoFaults(db.fault, old(db.clock), 2) ==>
              bot.outbox == Posted(old(bot.outbox), bot.network(old(bot.attempts)), ReplyTo(msg, Fixed(Welcome))) &&
              r == SendResult(bot.network(old(bot.attempts)))
  {
    var u := Enroll(db, user);
    if u.Abrupt? {
      return Abrupt(u.message);
    }
    r := bot.SendMessage(Number(msg.chatId), Fixed(Welcome), Some(msg.messageId));
  }

  /** handleHelp: the one handler that needs no sender. */
  method HandleHelp(bot: TelegramBot, msg: Incoming) returns (r: Completion<()>)
    modifies bot
    ensures bot.outbox == Posted(old(bot.outbox), bot.network(old(bot.attempts)), ReplyTo(msg, Fixed(Help)))
    ensures r == SendResult(bot.network(old(bot.attempts))) && bot.attempts == old(bot.attempts) + 1
  {
    r := bot.SendMessage(Number(msg.chatId), Fixed(Help), Some(msg.messageId));
  }

  // ---------------------------------------------------------------------
  // /add

  /** A row that the creation path can leave behind: inserted, and filled in unless the update failed. */
  predicate NewRow(x: Item, id: nat, userId: nat, url: JsString, xpath: JsString, labelText: Option<JsString>,
                   content: JsString, t: nat)
  {
    x.id == id && x.userId == userId && x.url == url && x.xpath == xpath && x.labelText == labelText &&
    x.active && x.createdAt == t &&
    ((x.lastContent == None && x.lastHash == None && x.lastChecked == None && x.lastUpdated == None) ||
     (x.lastContent == Some(content) && x.lastHash == Some(HashContent(content)) &&
      x.lastChecked == Some(t + 1) && x.lastUpdated == Some(t + 1)))
  }

  /** The `catch` of handleAdd: an error whose message is 'Request timeout' gets REQUEST_TIMEOUT, any other ADD_ERROR. */
  function CatchReply(message: JsString): (n: Notice)
    ensures n == RequestTimeout <==> message == RequestTimeoutError
    ensures n == RequestTimeout || n == AddError
  {
    if message == RequestTimeoutError then RequestTimeout else AddError
  }

  /** The `try` block of handleAdd, after the extraction: answers the error it ends with, if any. */
  method Attempt(db: DatabaseManager, bot: TelegramBot, msg: Incoming, userId: nat,
                 url: JsString, xpath: JsString, labelText: Option<JsString>, content: Option<JsString>)
    returns (failure: Option<JsString>)
    requires db.Valid()
    modifies db, bot
    ensures db.Valid() && db.users == old(db.users)
    ensures db.items == old(db.items) ||
            (content.Some? && db.fault(old(db.clock)).None? &&
             |db.items| == |old(db.items)| + 1 && db.items[..|old(db.items)|] == old(db.items) &&
             NewRow(db.items[|old(db.items)|], |old(db.items)| + 1, userId, url, xpath, labelText, content.value, old(db.clock)))
    ensures RepliesOnly(old(bot.outbox), bot.outbox, msg)
    ensures content.None? ==>
              db.items == old(db.items) && bot.attempts == old(bot.attempts) + 1 &&
              bot.outbox == Posted(old(bot.outbox), bot.network(old(bot.attempts)), ReplyTo(msg, Fixed(XPathFailed))) &&
              failure == Thrown(bot.network(old(bot.attempts)))
    ensures content.Some? && db.fault(old(db.clock)).Some? ==>
              db.items == old(db.items) && bot.outbox == old(bot.outbox) && bot.attempts == old(bot.attempts) &&
              failure == db.fault(old(db.clock))
    ensures content.Some? && db.fault(old(db.clock)).None? ==> |db.items| == |old(db.items)| + 1
    ensures content.Some? && db.fault(old(db.clock)).None? && db.fault(old(db.clock) + 1).Some? ==>
              db.items[|old(db.items)|].lastContent == None &&
              bot.outbox == old(bot.outbox) && bot.attempts == old(bot.attempts) &&
              failure == db.fault(old(db.clock) + 1)
    ensures content.Some? && NoFaults(db.fault, old(db.clock), 2) ==>
              db.items[|old(db.items)|].lastContent == content &&
              db.items[|old(db.items)|].lastHash == Some(HashContent(content.value)) &&
              bot.attempts == old(bot.attempts) + 1 &&
              bot.outbox == Posted(old(bot.outbox), bot.network(old(bot.attempts)),
                                   ReplyTo(msg, Text(AddSuccess(url, xpath, labelText, content.value)))) &&
              failure == Thrown(bot.network(old(bot.attempts)))
  {
    ghost var before := db.items;
    ghost var t := db.clock;
    failure := None;
    if content.None? {
      var sent := bot.SendMessage(Number(msg.chatId), Fixed(XPathFailed), Some(msg.messageId));
      if sent.Abrupt? {
        failure := Some(sent.message);
      }
      return;
    }
    var itemId := db.AddTrackingItem(userId, url, xpath, labelText);
    if itemId.Abrupt? {
      return Some(itemId.message);
    }
    ghost var inserted := db.items;
    failure := StoreAndConfirm(db, bot, msg, itemId.value, url, xpath, labelText, content.value);
    if db.fault(t + 1).None? {
      StoredEffect(inserted, itemId.value, content.value, HashContent(content.value), t + 1, 0);
    }
    assert db.items[..|before|] == before;
  }

  /** The rest of the `try` block once the row exists: store content and hash, then confirm. */
  method StoreAndConfirm(db: DatabaseManager, bot: TelegramBot, msg: Incoming, itemId: int,
                         url: JsString, xpath: JsString, labelText: Option<JsString>, content: JsString)
    returns (failure: Option<JsString>)
    requires db.Valid()
    modifies db, bot
    ensures db.Valid() && db.users == old(db.users)
    ensures RepliesOnly(old(bot.outbox), bot.outbox, msg)
    ensures db.fault(old(db.clock)).Some? ==>
              db.items == old(db.items) && bot.outbox == old(bot.outbox) && bot.attempts == old(bot.attempts) &&
              failure == db.fault(old(db.clock))
    ensures db.fault(old(db.clock)).None? ==>
              db.items == Stored(old(db.items), itemId, content, HashContent(content), old(db.clock)) &&
              bot.attempts == old(bot.attempts) + 1 &&
              bot.outbox == Posted(old(bot.outbox), bot.network(old(bot.attempts)),
                                   ReplyTo(msg, Text(AddSuccess(url, xpath, labelText, content)))) &&
              failure == Thrown(bot.network(old(bot.attempts)))
  {
    var hash := ComputeHash(content);
    var u := db.UpdateTrackingItem(itemId, content, hash);
    if u.Abrupt? {
      return Some(u.message);
    }
    var sent := bot.SendMessage(Number(msg.chatId), Text(AddSuccess(url, xpath, labelText, content)),
                                Some(msg.messageId));
    failure := if sent.Abrupt? then Some(sent.message) else None;
  }

  /** The `try` block of handleAdd with its `catch`. */
  method TryCreate(db: DatabaseManager, bot: TelegramBot, msg: Incoming, userId: nat,
                   url: JsString, xpath: JsString, labelText: Option<JsString>, content: Option<JsString>)
    returns (r: Completion<()>)
    requires db.Valid()
    modifies db, bot
    ensures db.Valid() && db.users == old(db.users)
    ensures db.items == old(db.items) ||
            (content.Some? && |db.items| == |old(db.items)| + 1 && db.items[..|old(db.items)|] == old(db.items) &&
             NewRow(db.items[|old(db.items)|], |old(db.items)| + 1, userId, url, xpath, labelText, content.value, old(db.clock)))
    ensures RepliesOnly(old(bot.outbox), bot.outbox, msg)
    ensures content.None? ==> db.items == old(db.items)
    ensures content.Some? && db.fault(old(db.clock)).None? ==> |db.items| == |old(db.items)| + 1
    ensures content.None? && !bot.network(old(bot.attempts)).Fails? ==>
              bot.outbox == Posted(old(bot.outbox), bot.network(old(bot.attempts)), ReplyTo(msg, Fixed(XPathFailed)))
    ensures content.None? && bot.network(old(bot.attempts)).Fails? ==>
              bot.outbox == Posted(old(bot.outbox), bot.network(old(bot.attempts) + 1),
                                   ReplyTo(msg, Fixed(CatchReply(bot.network(old(bot.attempts)).message))))
    ensures content.Some? && db.fault(old(db.clock)).Some? ==>
              db.items == old(db.items) &&
              bot.outbox == Posted(old(bot.outbox), bot.network(old(bot.attempts)),
                                   ReplyTo(msg, Fixed(CatchReply(db.fault(old(db.clock)).value))))
    ensures content.Some? && db.fault(old(db.clock)).None? && db.fault(old(db.clock) + 1).Some? ==>
              |db.items| == |old(db.items)| + 1 && db.items[|old(db.items)|].lastContent == None &&
              bot.outbox == Posted(old(bot.outbox), bot.network(old(bot.attempts)),
                                   ReplyTo(msg, Fixed(CatchReply(db.fault(old(db.clock) + 1).value))))
    ensures content.Some? && NoFaults(db.fault, old(db.clock), 2) ==>
              |db.items| == |old(db.items)| + 1 &&
              db.items[|old(db.items)|].lastContent == content &&
              db.items[|old(db.items)|].lastHash == Some(HashContent(content.value))
    ensures content.Some? && NoFaults(db.fault, old(db.clock), 2) && !bot.network(old(bot.attempts)).Fails? ==>
              bot.outbox == Posted(old(bot.outbox), bot.network(old(bot.attempts)),
                                   ReplyTo(msg, Text(AddSuccess(url, xpath, labelText, content.value))))
  {
    var failure := Attempt(db, bot, msg, userId, url, xpath, labelText, content);
    if failure.None? {
      return Normal(());
    }
    r := bot.SendMessage(Number(msg.chatId), Fixed(CatchReply(failure.value)), Some(msg.messageId));
  }

  /** What the page at `url` yields for `xpath` when fetched at clock value t. */
  function Fetched<N>(w: World<N>, url: JsString, xpath: JsString, t: nat): Option<JsString> {
    Extract(w.page(RequestFor(url), t), w.dom, xpath)
  }

  /** The user is under the limit and the URL parses: handleAdd goes on to test the selector. */
  predicate Admitted<N>(items: seq<Item>, userId: nat, args: seq<JsString>, w: World<N>)
    requires |args| >= 2
  {
    ActiveCount(items, userId) < MaxTrackingItemsPerUser && w.isUrl(args[0])
  }

  /** One more row for a user who was under the limit keeps every user within it. */
  lemma AppendKeepsLimit(before: seq<Item>, after: seq<Item>, userId: nat)
    requires |after| == |before| + 1 && after[..|before|] == before
    requires after[|before|].userId == userId && ActiveCount(before, userId) < MaxTrackingItemsPerUser
    ensures forall u :: ActiveCount(before, u) <= MaxTrackingItemsPerUser ==> ActiveCount(after, u) <= MaxTrackingItemsPerUser
  {
    var x := after[|before|];
    assert after == before + [x];
    forall u | ActiveCount(before, u) <= MaxTrackingItemsPerUser
      ensures ActiveCount(after, u) <= MaxTrackingItemsPerUser
    {
      ActiveCountSnoc(before, x, u);
    }
  }

  /** handleAdd from the limit check on, for a registered user and at least two arguments. */
  method AddForUser<N>(db: DatabaseManager, bot: TelegramBot, w: World<N>, msg: Incoming, userId: nat,
                       args: seq<JsString>)
    returns (r: Completion<()>)
    requires db.Valid() && |args| >= 2
    modifies db, bot
    ensures db.Valid() && db.users == old(db.users)
    ensures old(db.items) <= db.items && |db.items| <= |old(db.items)| + 1
    ensures forall u :: ActiveCount(old(db.items), u) <= MaxTrackingItemsPerUser ==>
                       ActiveCount(db.items, u) <= MaxTrackingItemsPerUser
    ensures |db.items| > |old(db.items)| ==>
              db.fault(old(db.clock)).None? && Admitted(old(db.items), userId, args, w) &&
              Fetched(w, args[0], args[1], old(db.clock) + 1).Some? &&
              NewRow(db.items[|old(db.items)|], |old(db.items)| + 1, userId, args[0], args[1], Label(args),
                     Fetched(w, args[0], args[1], old(db.clock) + 1).value, old(db.clock) + 1)
    ensures RepliesOnly(old(bot.outbox), bot.outbox, msg)
    ensures db.fault(old(db.clock)).None? && ActiveCount(old(db.items), userId) >= MaxTrackingItemsPerUser ==>
              db.items == old(db.items) &&
              bot.outbox == Posted(old(bot.outbox), bot.network(old(bot.attempts)),
                                   ReplyTo(msg, Text(AddLimitReached(MaxTrackingItemsPerUser))))
    ensures db.fault(old(db.clock)).None? && ActiveCount(old(db.items), userId) < MaxTrackingItemsPerUser &&
            !w.isUrl(args[0]) ==>
              db.items == old(db.items) &&
              bot.outbox == Posted(old(bot.outbox), bot.network(old(bot.attempts)), ReplyTo(msg, Fixed(InvalidUrl)))
    ensures db.fault(old(db.clock)).None? && Admitted(old(db.items), userId, args, w) &&
            Fetched(w, args[0], args[1], old(db.clock) + 1).None? ==>
              db.items == old(db.items) &&
              (!bot.network(old(bot.attempts)).Fails? ==>
                 bot.outbox == Posted(old(bot.outbox), bot.network(old(bot.attempts)), ReplyTo(msg, Fixed(XPathFailed))))
    ensures db.fault(old(db.clock)).None? && Admitted(old(db.items), userId, args, w) &&
            Fetched(w, args[0], args[1], old(db.clock) + 1).Some? && db.fault(old(db.clock) + 1).Some? ==>
              db.items == old(db.items) &&
              bot.outbox == Posted(old(bot.outbox), bot.network(old(bot.attempts)),
                                   ReplyTo(msg, Fixed(CatchReply(db.fault(old(db.clock) + 1).value))))
    ensures NoFaults(db.fault, old(db.clock), 2) && Admitted(old(db.items), userId, args, w) &&
            Fetched(w, args[0], args[1], old(db.clock) + 1).Some? ==>
              |db.items| == |old(db.items)| + 1
    ensures NoFaults(db.fault, old(db.clock), 3) && Admitted(old(db.items), userId, args, w) &&
            Fetched(w, args[0], args[1], old(db.clock) + 1).Some? ==>
              var content := Fetched(w, args[0], args[1], old(db.clock) + 1);
              |db.items| == |old(db.items)| + 1 &&
              db.items[|old(db.items)|].lastContent == content &&
              db.items[|old(db.items)|].lastHash == Some(HashContent(content.value)) &&
              (!bot.network(old(bot.attempts)).Fails? ==>
                 bot.outbox == Posted(old(bot.outbox), bot.network(old(bot.attempts)),
                                      ReplyTo(msg, Text(AddSuccess(args[0], args[1], Label(args), content.value)))))
  {
    ghost var before := db.items;
    var currentCount := db.GetUserTrackingItemsCount(userId);
    if currentCount.Abrupt? {
      return Abrupt(currentCount.message);
    }
    if currentCount.value >= MaxTrackingItemsPerUser {
      r := bot.SendMessage(Number(msg.chatId), Text(AddLimitReached(MaxTrackingItemsPerUser)), Some(msg.messageId));
      return;
    }
    var url := args[0];
    var xpathSelector := args[1];
    var labelText := Label(args);
    if !w.isUrl(url) {
      r := bot.SendMessage(Number(msg.chatId), Fixed(InvalidUrl), Some(msg.messageId));
      return;
    }
    var content := Extract(w.page(RequestFor(url), db.clock), w.dom, xpathSelector);
    assert content == Fetched(w, args[0], args[1], old(db.clock) + 1);
    r := TryCreate(db, bot, msg, userId, url, xpathSelector, labelText, content);
    if |db.items| > |before| {
      AppendKeepsLimit(before, db.items, userId);
    }
  }

  /** handleAdd. */
  method HandleAdd<N>(db: DatabaseManager, bot: TelegramBot, w: World<N>, msg: Incoming, user: From)
    returns (r: Completion<()>)
    requires db.Valid() && msg.text.Some?
    modifies db, bot
    ensures db.Valid()
    ensures db.users == old(db.users) || db.users == Enrolled(old(db.users), user)
    ensures old(db.items) <= db.items && |db.items| <= |old(db.items)| + 1
    ensures forall u :: ActiveCount(old(db.items), u) <= MaxTrackingItemsPerUser ==>
                       ActiveCount(db.items, u) <= MaxTrackingItemsPerUser
    ensures |db.items| > |old(db.items)| ==>
              var args := Args(msg.text.value);
              |args| >= 2 && Admitted(old(db.items), EnrolledId(old(db.users), user), args, w) &&
              Fetched(w, args[0], args[1], old(db.clock) + 3).Some? &&
              NewRow(db.items[|old(db.items)|], |old(db.items)| + 1, EnrolledId(old(db.users), user),
                     args[0], args[1], Label(args), Fetched(w, args[0], args[1], old(db.clock) + 3).value, old(db.clock) + 3)
    ensures RepliesOnly(old(bot.outbox), bot.outbox, msg)
    ensures NoFaults(db.fault, old(db.clock), 2) && |Args(msg.text.value)| < 2 ==>
              db.items == old(db.items) &&
              bot.outbox == Posted(old(bot.outbox), bot.network(old(bot.attempts)), ReplyTo(msg, Fixed(AddInvalidFormat)))
    ensures NoFaults(db.fault, old(db.clock), 3) && |Args(msg.text.value)| >= 2 &&
            ActiveCount(old(db.items), EnrolledId(old(db.users), user)) >= MaxTrackingItemsPerUser ==>
              db.items == old(db.items) &&
              bot.outbox == Posted(old(bot.outbox), bot.network(old(bot.attempts)),
                                   ReplyTo(msg, Text(AddLimitReached(MaxTrackingItemsPerUser))))
    ensures NoFaults(db.fault, old(db.clock), 3) && |Args(msg.text.value)| >= 2 &&
            ActiveCount(old(db.items), EnrolledId(old(db.users), user)) < MaxTrackingItemsPerUser &&
            !w.isUrl(Args(msg.text.value)[0]) ==>
              db.items == old(db.items) &&
              bot.outbox == Posted(old(bot.outbox), bot.network(old(bot.attempts)), ReplyTo(msg, Fixed(InvalidUrl)))
    ensures NoFaults(db.fault, old(db.clock), 3) && |Args(msg.text.value)| >= 2 &&
            Admitted(old(db.items), EnrolledId(old(db.users), user), Args(msg.text.value), w) &&
            Fetched(w, Args(msg.text.value)[0], Args(msg.text.value)[1], old(db.clock) + 3).None? ==>
              db.items == old(db.items) &&
              (!bot.network(old(bot.attempts)).Fails? ==>
                 bot.outbox == Posted(old(bot.outbox), bot.network(old(bot.attempts)), ReplyTo(msg, Fixed(XPathFailed))))
    ensures NoFaults(db.fault, old(db.clock), 4) && |Args(msg.text.value)| >= 2 &&
            Admitted(old(db.items), EnrolledId(old(db.users), user), Args(msg.text.value), w) &&
            Fetched(w, Args(msg.text.value)[0], Args(msg.text.value)[1], old(db.clock) + 3).Some? ==>
              var args := Args(msg.text.value);
              var content := Fetched(w, args[0], args[1], old(db.clock) + 3);
              |db.items| == |old(db.items)| + 1 &&
              (NoFaults(db.fault, old(db.clock), 5) ==>
                 db.items[|old(db.items)|].lastContent == content &&
                 db.items[|old(db.items)|].lastHash == Some(HashContent(content.value)) &&
                 (!bot.network(old(bot.attempts)).Fails? ==>
                    bot.outbox == Posted(old(bot.outbox), bot.network(old(bot.attempts)),
                                         ReplyTo(msg, Text(AddSuccess(args[0], args[1], Label(args), content.value))))))
  {
    var args := Args(msg.text.value);
    var userData := Enroll(db, user);
    if userData.Abrupt? {
      return Abrupt(userData.message);
    }
    if |args| < 2 {
      r := bot.SendMessage(Number(msg.chatId), Fixed(AddInvalidFormat), Some(msg.messageId));
      return;
    }
    r := AddForUser(db, bot, w, msg, userData.value.id, args);
  }

  // ---------------------------------------------------------------------
  // /list and /status

  /** The reply of handleList for a listing. */
  function ListReply(listing: seq<Item>, showTime: nat -> JsString): Body {
    if listing == [] then Fixed(NoTrackingItems) else Text(ListText(listing, showTime))
  }

  /** The reply of handleStatus for a listing. */
  function StatusReply(listing: seq<Item>, showTime: nat -> JsString): Body {
    if listing == [] then Fixed(NoTrackingItems) else Text(StatusText(listing, showTime))
  }

  /** NO_TRACKING_ITEMS is the answer exactly when the user has no active item. */
  lemma NoItemsNotice(items: seq<Item>, userId: nat, showTime: nat -> JsString)
    requires ItemsValid(items)
    ensures ListReply(ListedFor(items, userId), showTime) == Fixed(NoTrackingItems) <==> ActiveCount(items, userId) == 0
    ensures StatusReply(ListedFor(items, userId), showTime) == Fixed(NoTrackingItems) <==> ActiveCount(items, userId) == 0
  {
    ListedForCountAndOrder(items, userId);
  }

  /** handleList. */
  method HandleList(db: DatabaseManager, bot: TelegramBot, showTime: nat -> JsString, msg: Incoming, user: From)
    returns (r: Completion<()>)
    requires db.Valid()
    modifies db, bot
    ensures db.Valid() && db.items == old(db.items)
    ensures db.users == old(db.users) || db.users == Enrolled(old(db.users), user)
    ensures RepliesOnly(old(bot.outbox), bot.outbox, msg)
    ensures !NoFaults(db.fault, old(db.clock), 3) ==> r.Abrupt? && bot.outbox == old(bot.outbox)
    ensures NoFaults(db.fault, old(db.clock), 3) ==>
              bot.outbox == Posted(old(bot.outbox), bot.network(old(bot.attempts)),
                                   ReplyTo(msg, ListReply(ListedFor(old(db.items), EnrolledId(old(db.users), user)), showTime))) &&
              r == SendResult(bot.network(old(bot.attempts)))
  {
    var userData := Enroll(db, user);
    if userData.Abrupt? {
      return Abrupt(userData.message);
    }
    var items := db.GetUserTrackingItems(userData.value.id);
    if items.Abrupt? {
      return Abrupt(items.message);
    }
    if |items.value| == 0 {
      r := bot.SendMessage(Number(msg.chatId), Fixed(NoTrackingItems), Some(msg.messageId));
      return;
    }
    var message := RenderList(items.value, showTime);
    r := bot.SendMessage(Number(msg.chatId), Text(message), Some(msg.messageId));
  }

  /** handleStatus. */
  method HandleStatus(db: DatabaseManager, bot: TelegramBot, showTime: nat -> JsString, msg: Incoming, user: From)
    returns (r: Completion<()>)
    requires db.Valid()
    modifies db, bot
    ensures db.Valid() && db.items == old(db.items)
    ensures db.users == old(db.users) || db.users == Enrolled(old(db.users), user)
    ensures RepliesOnly(old(bot.outbox), bot.outbox, msg)
    ensures !NoFaults(db.fault, old(db.clock), 3) ==> r.Abrupt? && bot.outbox == old(bot.outbox)
    ensures NoFaults(db.fault, old(db.clock), 3) ==>
              bot.outbox == Posted(old(bot.outbox), bot.network(old(bot.attempts)),
                                   ReplyTo(msg, StatusReply(ListedFor(old(db.items), EnrolledId(old(db.users), user)), showTime))) &&
              r == SendResult(bot.network(old(bot.attempts)))
  {
    var userData := Enroll(db, user);
    if userData.Abrupt? {
      return Abrupt(userData.message);
    }
    var items := db.GetUserTrackingItems(userData.value.id);
    if items.Abrupt? {
      return Abrupt(items.message);
    }
    if |items.value| == 0 {
      r := bot.SendMessage(Number(msg.chatId), Fixed(NoTrackingItems), Some(msg.messageId));
      return;
    }
    var message := RenderStatus(items.value, showTime);
    r := bot.SendMessage(Number(msg.chatId), Text(message), Some(msg.messageId));
  }

  // ---------------------------------------------------------------------
  // /delete

  /** How handleDelete reads its first argument. */
  datatype DeleteArg = NoArgument | NotANumber | ItemId(id: int)

  /** `args.length === 0`, then `parseInt(args[0])` and `isNaN`. */
  function DeleteArgument(args: seq<JsString>): (r: DeleteArg)
    ensures r.NoArgument? <==> args == []
    ensures r.NotANumber? <==> args != [] && ParseInt(args[0]).None?
    ensures r.ItemId? ==> args != [] && ParseInt(args[0]) == Some(r.id)
  {
    if args == [] then NoArgument
    else match ParseInt(args[0])
      case None => NotANumber
      case Some(n) => ItemId(n)
  }

  /** An id as /list prints it is read back as that id, whatever follows it. */
  lemma DeleteArgumentOfNumber(n: int, rest: seq<JsString>)
    ensures DeleteArgument([NumberToString(n)] + rest) == ItemId(n)
  {
    ParseIntOfNumberToString(n);
  }

  /** The reply of handleDelete once the user is registered and, for an id, the update has run. */
  function DeleteReply(items: seq<Item>, userId: nat, arg: DeleteArg): Notice {
    match arg
    case NoArgument => DeleteInvalidFormat
    case NotANumber => DeleteInvalidId
    case ItemId(id) => if OwnsItem(items, userId, id) then DeleteSuccess else DeleteNotFound
  }

  /** The statements handleDelete runs: registration, and the update when there is an id. */
  function DeleteStatements(arg: DeleteArg): nat {
    if arg.ItemId? then 3 else 2
  }

  /** handleDelete. */
  method HandleDelete(db: DatabaseManager, bot: TelegramBot, msg: Incoming, user: From) returns (r: Completion<()>)
    requires db.Valid() && msg.text.Some?
    modifies db, bot
    ensures db.Valid()
    ensures db.users == old(db.users) || db.users == Enrolled(old(db.users), user)
    ensures var arg := DeleteArgument(Args(msg.text.value));
      db.items == old(db.items) ||
      (arg.ItemId? && db.items == SoftDeleted(old(db.items), EnrolledId(old(db.users), user), arg.id))
    ensures forall u :: ActiveCount(db.items, u) <= ActiveCount(old(db.items), u)
    ensures RepliesOnly(old(bot.outbox), bot.outbox, msg)
    ensures var arg := DeleteArgument(Args(msg.text.value));
      NoFaults(db.fault, old(db.clock), DeleteStatements(arg)) ==>
        (arg.ItemId? ==> db.items == SoftDeleted(old(db.items), EnrolledId(old(db.users), user), arg.id)) &&
        bot.outbox == Posted(old(bot.outbox), bot.network(old(bot.attempts)),
                             ReplyTo(msg, Fixed(DeleteReply(old(db.items), EnrolledId(old(db.users), user), arg))))
  {
    ghost var before := db.items;
    var args := Args(msg.text.value);
    var userData := Enroll(db, user);
    if userData.Abrupt? {
      return Abrupt(userData.message);
    }
    var arg := DeleteArgument(args);
    match arg
    case NoArgument =>
      r := bot.SendMessage(Number(msg.chatId), Fixed(DeleteInvalidFormat), Some(msg.messageId));
    case NotANumber =>
      r := bot.SendMessage(Number(msg.chatId), Fixed(DeleteInvalidId), Some(msg.messageId));
    case ItemId(itemId) =>
      r := DeleteOwned(db, bot, msg, userData.value.id, itemId);
  }

  /** The soft delete of handleDelete and its reply, once the id is parsed. */
  method DeleteOwned(db: DatabaseManager, bot: TelegramBot, msg: Incoming, userId: nat, itemId: int)
    returns (r: Completion<()>)
    requires db.Valid()
    modifies db, bot
    ensures db.Valid() && db.users == old(db.users) && db.clock == old(db.clock) + 1
    ensures db.items == old(db.items) || db.items == SoftDeleted(old(db.items), userId, itemId)
    ensures forall u :: ActiveCount(db.items, u) <= ActiveCount(old(db.items), u)
    ensures RepliesOnly(old(bot.outbox), bot.outbox, msg)
    ensures db.fault(old(db.clock)).Some? ==> bot.outbox == old(bot.outbox)
    ensures db.fault(old(db.clock)).None? ==>
              db.items == SoftDeleted(old(db.items), userId, itemId) &&
              bot.outbox == Posted(old(bot.outbox), bot.network(old(bot.attempts)),
                                   ReplyTo(msg, Fixed(if OwnsItem(old(db.items), userId, itemId)
                                                      then DeleteSuccess else DeleteNotFound)))
  {
    ghost var before := db.items;
    var success := db.DeleteTrackingItem(userId, itemId);
    forall u ensures ActiveCount(db.items, u) <= ActiveCount(before, u) {
      SoftDeletedCount(before, userId, itemId, u);
    }
    if success.Abrupt? {
      return Abrupt(success.message);
    }
    if success.value {
      r := bot.SendMessage(Number(msg.chatId), Fixed(DeleteSuccess), Some(msg.messageId));
    } else {
      r := bot.SendMessage(Number(msg.chatId), Fixed(DeleteNotFound), Some(msg.messageId));
    }
  }

  // ---------------------------------------------------------------------
  // handleTelegramUpdate

  /** The update carries a message whose text is non-empty and starts with '/'. */
  predicate IsCommandMessage(update: Update) {
    update.message.Some? && update.message.value.text.Some? && StartsWith(update.message.value.text.value, Slash)
  }

  /** The words of a command message. */
  function CommandOf(update: Update): Command
    requires IsCommandMessage(update)
  {
    Classify(Words(update.message.value.text.value)[0])
  }

  /** The handlers that read `user.id` and so throw for a message without a sender. */
  predicate NeedsSender(c: Command) {
    c.OnStart? || c.OnAdd? || c.OnList? || c.OnStatus? || c.OnDelete?
  }

  /** The `catch` of handleTelegramUpdate: after any error, GENERAL_ERROR is sent. */
  method Recover(bot: TelegramBot, msg: Incoming, outcome: Completion<()>) returns (r: Completion<()>)
    modifies bot
    ensures outcome.Normal? ==> r == Normal(()) && bot.outbox == old(bot.outbox) && bot.attempts == old(bot.attempts)
    ensures outcome.Abrupt? ==>
              bot.outbox == Posted(old(bot.outbox), bot.network(old(bot.attempts)), ReplyTo(msg, Fixed(GeneralError))) &&
              r == SendResult(bot.network(old(bot.attempts))) && bot.attempts == old(bot.attempts) + 1
  {
    if outcome.Normal? {
      return Normal(());
    }
    r := bot.SendMessage(Number(msg.chatId), Fixed(GeneralError), Some(msg.messageId));
  }

  /** The cases of the `switch` that need the sender. */
  method DispatchForSender<N>(db: DatabaseManager, bot: TelegramBot, w: World<N>, msg: Incoming, user: From,
                              command: Command)
    returns (outcome: Completion<()>)
    requires db.Valid() && msg.text.Some? && NeedsSender(command)
    modifies db, bot
    ensures db.Valid()
    ensures forall u :: ActiveCount(old(db.items), u) <= MaxTrackingItemsPerUser ==>
                       ActiveCount(db.items, u) <= MaxTrackingItemsPerUser
    ensures RepliesOnly(old(bot.outbox), bot.outbox, msg)
    ensures db.users == old(db.users) || db.users == Enrolled(old(db.users), user)
    ensures command.OnStart? ==>
              db.items == old(db.items) &&
              (NoFaults(db.fault, old(db.clock), 2) ==>
                 bot.outbox == Posted(old(bot.outbox), bot.network(old(bot.attempts)), ReplyTo(msg, Fixed(Welcome))) &&
                 outcome == SendResult(bot.network(old(bot.attempts))))
    ensures command.OnAdd? ==> old(db.items) <= db.items && |db.items| <= |old(db.items)| + 1
    ensures command.OnList? ==>
              db.items == old(db.items) &&
              (NoFaults(db.fault, old(db.clock), 3) ==>
                 bot.outbox == Posted(old(bot.outbox), bot.network(old(bot.attempts)),
                                      ReplyTo(msg, ListReply(ListedFor(old(db.items), EnrolledId(old(db.users), user)), w.showTime))) &&
                 outcome == SendResult(bot.network(old(bot.attempts))))
    ensures command.OnStatus? ==>
              db.items == old(db.items) &&
              (NoFaults(db.fault, old(db.clock), 3) ==>
                 bot.outbox == Posted(old(bot.outbox), bot.network(old(bot.attempts)),
                                      ReplyTo(msg, StatusReply(ListedFor(old(db.items), EnrolledId(old(db.users), user)), w.showTime))) &&
                 outcome == SendResult(bot.network(old(bot.attempts))))
    ensures command.OnDelete? ==>
              var arg := DeleteArgument(Args(msg.text.value));
              db.items == old(db.items) ||
              (arg.ItemId? && db.items == SoftDeleted(old(db.items), EnrolledId(old(db.users), user), arg.id))
  {
    match command
    case OnStart =>
      outcome := HandleStart(db, bot, msg, user);
    case OnAdd =>
      outcome := HandleAdd(db, bot, w, msg, user);
    case OnList =>
      outcome := HandleList(db, bot, w.showTime, msg, user);
    case OnStatus =>
      outcome := HandleStatus(db, bot, w.showTime, msg, user);
    case OnDelete =>
      outcome := HandleDelete(db, bot, msg, user);
  }

  /** The `switch` of handleTelegramUpdate, before its `catch`. */
  method Dispatch<N>(db: DatabaseManager, bot: TelegramBot, w: World<N>, msg: Incoming, command: Command)
    returns (outcome: Completion<()>)
    requires db.Valid() && msg.text.Some?
    modifies db, bot
    ensures db.Valid()
    ensures forall u :: ActiveCount(old(db.items), u) <= MaxTrackingItemsPerUser ==>
                       ActiveCount(db.items, u) <= MaxTrackingItemsPerUser
    ensures RepliesOnly(old(bot.outbox), bot.outbox, msg)
    ensures msg.from.Some? ==> db.users == old(db.users) || db.users == Enrolled(old(db.users), msg.from.value)
    ensures msg.from.None? || !NeedsSender(command) ==>
              db.users == old(db.users) && db.items == old(db.items) && db.clock == old(db.clock)
    ensures msg.from.None? && NeedsSender(command) ==>
              outcome.Abrupt? && bot.outbox == old(bot.outbox) && bot.attempts == old(bot.attempts)
    ensures command.OnOther? ==>
              bot.outbox == Posted(old(bot.outbox), bot.network(old(bot.attempts)), ReplyTo(msg, Fixed(UnknownCommand))) &&
              outcome == SendResult(bot.network(old(bot.attempts))) && bot.attempts == old(bot.attempts) + 1
    ensures command.OnHelp? ==>
              bot.outbox == Posted(old(bot.outbox), bot.network(old(bot.attempts)), ReplyTo(msg, Fixed(Help))) &&
              outcome == SendResult(bot.network(old(bot.attempts))) && bot.attempts == old(bot.attempts) + 1
    ensures msg.from.Some? && command.OnStart? ==>
              db.items == old(db.items) &&
              (NoFaults(db.fault, old(db.clock), 2) ==>
                 bot.outbox == Posted(old(bot.outbox), bot.network(old(bot.attempts)), ReplyTo(msg, Fixed(Welcome))) &&
                 outcome == SendResult(bot.network(old(bot.attempts))))
    ensures command.OnAdd? ==> old(db.items) <= db.items && |db.items| <= |old(db.items)| + 1
    ensures msg.from.Some? && command.OnList? ==>
              db.items == old(db.items) &&
              (NoFaults(db.fault, old(db.clock), 3) ==>
                 bot.outbox == Posted(old(bot.outbox), bot.network(old(bot.attempts)),
                                      ReplyTo(msg, ListReply(ListedFor(old(db.items), EnrolledId(old(db.users), msg.from.value)), w.showTime))) &&
                 outcome == SendResult(bot.network(old(bot.attempts))))
    ensures msg.from.Some? && command.OnStatus? ==>
              db.items == old(db.items) &&
              (NoFaults(db.fault, old(db.clock), 3) ==>
                 bot.outbox == Posted(old(bot.outbox), bot.network(old(bot.attempts)),
                                      ReplyTo(msg, StatusReply(ListedFor(old(db.items), EnrolledId(old(db.users), msg.from.value)), w.showTime))) &&
                 outcome == SendResult(bot.network(old(bot.attempts))))
    ensures msg.from.Some? && command.OnDelete? ==>
              var arg := DeleteArgument(Args(msg.text.value));
              db.items == old(db.items) ||
              (arg.ItemId? && db.items == SoftDeleted(old(db.items), EnrolledId(old(db.users), msg.from.value), arg.id))
  {
    if NeedsSender(command) {
      if msg.from.None? {
        return Abrupt(MissingSender);
      }
      outcome := DispatchForSender(db, bot, w, msg, msg.from.value, command);
    } else if command.OnHelp? {
      outcome := HandleHelp(bot, msg);
    } else {
      outcome := bot.SendMessage(Number(msg.chatId), Fixed(UnknownCommand), Some(msg.messageId));
    }
  }

  /** handleTelegramUpdate: ignore what is not a command, dispatch on the command word, recover from errors. */
  method HandleTelegramUpdate<N>(db: DatabaseManager, bot: TelegramBot, w: World<N>, update: Update)
    returns (r: Completion<()>)
    requires db.Valid()
    modifies db, bot
    ensures db.Valid()
    ensures !IsCommandMessage(update) ==>
              r == Normal(()) && db.users == old(db.users) && db.items == old(db.items) && db.clock == old(db.clock) &&
              bot.outbox == old(bot.outbox) && bot.attempts == old(bot.attempts)
    ensures forall u :: ActiveCount(old(db.items), u) <= MaxTrackingItemsPerUser ==>
                       ActiveCount(db.items, u) <= MaxTrackingItemsPerUser
    ensures IsCommandMessage(update) ==> RepliesOnly(old(bot.outbox), bot.outbox, update.message.value)
    ensures r.Abrupt? ==>
              IsCommandMessage(update) && 0 < bot.attempts && bot.network(bot.attempts - 1).Fails?
    ensures IsCommandMessage(update) && update.message.value.from.Some? ==>
              db.users == old(db.users) || db.users == Enrolled(old(db.users), update.message.value.from.value)
    ensures IsCommandMessage(update) && (update.message.value.from.None? || !NeedsSender(CommandOf(update))) ==>
              db.users == old(db.users) && db.items == old(db.items) && db.clock == old(db.clock)
    ensures IsCommandMessage(update) && update.message.value.from.None? && NeedsSender(CommandOf(update)) ==>
              bot.outbox == Posted(old(bot.outbox), bot.network(old(bot.attempts)),
                                   ReplyTo(update.message.value, Fixed(GeneralError)))
    ensures IsCommandMessage(update) && CommandOf(update).OnOther? && !bot.network(old(bot.attempts)).Fails? ==>
              bot.outbox == Posted(old(bot.outbox), bot.network(old(bot.attempts)),
                                   ReplyTo(update.message.value, Fixed(UnknownCommand)))
    ensures IsCommandMessage(update) && CommandOf(update).OnHelp? && !bot.network(old(bot.attempts)).Fails? ==>
              bot.outbox == Posted(old(bot.outbox), bot.network(old(bot.attempts)),
                                   ReplyTo(update.message.value, Fixed(Help)))
    ensures IsCommandMessage(update) && (CommandOf(update).OnOther? || CommandOf(update).OnHelp?) &&
            bot.network(old(bot.attempts)).Fails? ==>
              bot.outbox == Posted(old(bot.outbox), bot.network(old(bot.attempts) + 1),
                                   ReplyTo(update.message.value, Fixed(GeneralError)))
    ensures IsCommandMessage(update) && update.message.value.from.Some? &&
            (CommandOf(update).OnStart? || CommandOf(update).OnList? || CommandOf(update).OnStatus?) ==>
              db.items == old(db.items)
    ensures IsCommandMessage(update) && CommandOf(update).OnAdd? ==>
              old(db.items) <= db.items && |db.items| <= |old(db.items)| + 1
    ensures IsCommandMessage(update) && update.message.value.from.Some? && CommandOf(update).OnDelete? ==>
              var arg := DeleteArgument(Args(update.message.value.text.value));
              db.items == old(db.items) ||
              (arg.ItemId? &&
               db.items == SoftDeleted(old(db.items), EnrolledId(old(db.users), update.message.value.from.value), arg.id))
    ensures IsCommandMessage(update) && update.message.value.from.Some? && CommandOf(update).OnStart? &&
            NoFaults(db.fault, old(db.clock), 2) && !bot.network(old(bot.attempts)).Fails? ==>
              r == Normal(()) &&
              bot.outbox == Posted(old(bot.outbox), bot.network(old(bot.attempts)), ReplyTo(update.message.value, Fixed(Welcome)))
    ensures IsCommandMessage(update) && update.message.value.from.Some? && CommandOf(update).OnList? &&
            NoFaults(db.fault, old(db.clock), 3) && !bot.network(old(bot.attempts)).Fails? ==>
              var m := update.message.value;
              r == Normal(()) &&
              bot.outbox == Posted(old(bot.outbox), bot.network(old(bot.attempts)),
                                   ReplyTo(m, ListReply(ListedFor(old(db.items), EnrolledId(old(db.users), m.from.value)), w.showTime)))
    ensures IsCommandMessage(update) && update.message.value.from.Some? && CommandOf(update).OnStatus? &&
            NoFaults(db.fault, old(db.clock), 3) && !bot.network(old(bot.attempts)).Fails? ==>
              var m := update.message.value;
              r == Normal(()) &&
              bot.outbox == Posted(old(bot.outbox), bot.network(old(bot.attempts)),
                                   ReplyTo(m, StatusReply(ListedFor(old(db.items), EnrolledId(old(db.users), m.from.value)), w.showTime)))
  {
    if !IsCommandMessage(update) {
      return Normal(());
    }
    var msg := update.message.value;
    var outcome := Dispatch(db, bot, w, msg, Classify(Words(msg.text.value)[0]));
    r := Recover(bot, msg, outcome);
  }
}
