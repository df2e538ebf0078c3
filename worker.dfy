/**
 * The Worker's entry points: `fetch` routes an HTTP request to the webhook,
 * the manual check or the banner; `scheduled` runs the check from cron.
 */
module Worker {
  import opened Js
  import opened Constants
  import opened Storage
  import opened Telegram
  import opened Platform
  import opened Commands
  import opened Scheduler

  /**
   * An incoming request: its method, the pathname of its URL, the
   * X-Telegram-Bot-Api-Secret-Token header, and its body as an update
   * (None when `request.json()` throws).
   */
  datatype Request = Request(httpMethod: JsString, pathname: JsString, secretHeader: Option<JsString>, body: Option<Update>)

  datatype Response = Response(status: nat, body: JsString)

  datatype Route = Refused | Webhook | ManualCheck | Banner

  const Post: JsString := Utf16("POST")
  const WebhookPath: JsString := Utf16("/webhook")
  const ScheduledPath: JsString := Utf16("/__scheduled")

  const UnauthorizedText: JsString := Utf16("Unauthorized")
  const OkText: JsString := Utf16("OK")
  const CheckDoneText: JsString := Utf16("Scheduled check completed")
  const BannerText: JsString := Utf16("DOM Tracker Bot is running!")

  /** `!webhookSecret || webhookSecret !== env.WEBHOOK_SECRET`: a missing or empty header, or one that differs. */
  predicate SecretRejected(header: Option<JsString>, configured: Option<JsString>) {
    header.None? || header.value == [] || configured != header
  }

  /** The branches of `fetch`. */
  function RouteOf(req: Request, configured: Option<JsString>): (r: Route)
    ensures r == Webhook ==> configured.Some? && configured.value != [] && req.secretHeader == configured
    ensures r == Refused ==> req.httpMethod == Post && req.pathname == WebhookPath
  {
    if req.httpMethod == Post && req.pathname == WebhookPath then
      if SecretRejected(req.secretHeader, configured) then Refused else Webhook
    else if req.pathname == ScheduledPath then ManualCheck
    else Banner
  }

  /**
   * A webhook call is accepted exactly when it is a POST to /webhook whose
   * secret header is non-empty and equal to the configured secret.
   */
  lemma WebhookAcceptedIff(req: Request, configured: Option<JsString>)
    ensures RouteOf(req, configured) == Webhook <==>
              req.httpMethod == Post && req.pathname == WebhookPath &&
              configured.Some? && configured.value != [] && req.secretHeader == configured
  {
  }

  /** With no secret configured, or an empty one, no request reaches the command handlers. */
  lemma UnsetSecretRefusesAll(req: Request)
    ensures RouteOf(req, None) != Webhook && RouteOf(req, Some([])) != Webhook
  {
  }

  /** /__scheduled runs the check for any method and without any secret. */
  lemma ScheduledPathIsOpen(req: Request, configured: Option<JsString>)
    requires req.pathname == ScheduledPath
    ensures RouteOf(req, configured) == ManualCheck
  {
    Utf16Bmp("/__scheduled");
    Utf16Bmp("/webhook");
    assert ScheduledPath[1] != WebhookPath[1];
  }

  /** `fetch`. A throwing body parse, or an error escaping handleTelegramUpdate, rejects the promise. */
  method Fetch<N>(db: DatabaseManager, bot: TelegramBot, w: World<N>, req: Request, configured: Option<JsString>)
    returns (r: Completion<Response>)
    requires db.Valid()
    modifies db, bot
    ensures db.Valid()
    ensures forall u :: ActiveCount(old(db.items), u) <= MaxTrackingItemsPerUser ==>
                       ActiveCount(db.items, u) <= MaxTrackingItemsPerUser
    ensures RouteOf(req, configured) == Refused ==>
              r == Normal(Response(HttpUnauthorized, UnauthorizedText)) && Snapshot(db, bot) == old(Snapshot(db, bot))
    ensures RouteOf(req, configured) == Banner ==>
              r == Normal(Response(HttpOk, BannerText)) && Snapshot(db, bot) == old(Snapshot(db, bot))
    ensures RouteOf(req, configured) == ManualCheck ==>
              r == Normal(Response(HttpOk, CheckDoneText)) &&
              Snapshot(db, bot) == ScheduledCheck(Env(db.fault, bot.network, w), old(Snapshot(db, bot))).sys
    ensures RouteOf(req, configured) == Webhook && req.body.None? ==>
              r.Abrupt? && Snapshot(db, bot) == old(Snapshot(db, bot))
    ensures RouteOf(req, configured) == Webhook && req.body.Some? && !IsCommandMessage(req.body.value) ==>
              r == Normal(Response(HttpOk, OkText)) && Snapshot(db, bot) == old(Snapshot(db, bot))
    ensures RouteOf(req, configured) == Webhook && req.body.Some? && IsCommandMessage(req.body.value) ==>
              RepliesOnly(old(bot.outbox), bot.outbox, req.body.value.message.value) &&
              (r == Normal(Response(HttpOk, OkText)) ||
               (r.Abrupt? && 0 < bot.attempts && bot.network(bot.attempts - 1).Fails?))
  {
    match RouteOf(req, configured)
    case Refused =>
      r := Normal(Response(HttpUnauthorized, UnauthorizedText));
    case Webhook =>
      if req.body.None? {
        return Abrupt(Utf16("Unexpected token in JSON"));
      }
      var handled := HandleTelegramUpdate(db, bot, w, req.body.value);
      if handled.Abrupt? {
        return Abrupt(handled.message);
      }
      r := Normal(Response(HttpOk, OkText));
    case ManualCheck =>
      Scheduled(db, bot, w);
      r := Normal(Response(HttpOk, CheckDoneText));
    case Banner =>
      r := Normal(Response(HttpOk, BannerText));
  }

  /** `scheduled`: the cron trigger runs the check; handleScheduledCheck catches every error itself. */
  method Scheduled<N>(db: DatabaseManager, bot: TelegramBot, w: World<N>)
    requires db.Valid()
    modifies db, bot
    ensures db.Valid()
    ensures Snapshot(db, bot) == ScheduledCheck(Env(db.fault, bot.network, w), old(Snapshot(db, bot))).sys
    ensures forall u :: ActiveCount(db.items, u) == ActiveCount(old(db.items), u)
  {
    ghost var s0 := Snapshot(db, bot);
    HandleScheduledCheck(db, bot, w);
    forall u ensures ActiveCount(db.items, u) == ActiveCount(s0.items, u) {
      ScheduledCheckKeepsCounts(Env(db.fault, bot.network, w), s0, u);
    }
  }
}
