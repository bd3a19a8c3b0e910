/**
 * The Chatwoot side of the application: the settings `upsert_config`
 * stores (src/core/integration_chatwoot_meta.py) and the decision the
 * Chatwoot webhook makes about an incoming event before it answers
 * (src/backend/api/webhooks.py). JSON decoding, the stored account
 * setting and the HTTP send are parameters.
 */
module Integrations {
  import opened Wrappers
  import opened PyText
  import opened PyValue

  // ---------------------------------------------------------------- stored settings

  const UrlAndTokenRequired := "URL e Token são obrigatórios."
  const DefaultWebhookPath := "/api/v1/webhooks/chatwoot-meta"

  /** What `upsert_config` is given. */
  datatype ConfigInput = ConfigInput(
    baseUrl: Option<string>, token: Option<string>, externalUrl: Option<string>, path: Option<string>, isActive: bool)

  /** The row `upsert_config` writes. */
  datatype StoredConfig = StoredConfig(
    baseUrl: string, token: string, externalUrl: Option<string>, path: string, isActive: bool)

  /** A set, non-empty text: Python's truthiness of an optional string. */
  predicate Given(v: Option<string>) { v.Some? && v.value != [] }

  /** `url.strip().rstrip("/")`: the stripped URL without its trailing slashes. */
  function TrimUrl(url: string): (r: string)
    ensures r == [] || r[|r| - 1] != '/'
    ensures StartsWith(Strip(url), r) && forall k :: |r| <= k < |Strip(url)| ==> Strip(url)[k] == '/'
  {
    RStripChar(Strip(url), '/')
  }

  /** The webhook path: stripped and given a leading slash when set, the default path when not. */
  function WebhookPath(path: Option<string>): (r: string)
    ensures StartsWith(r, "/")
    ensures !Given(path) ==> r == DefaultWebhookPath
    ensures Given(path) ==> r == Strip(path.value) || r == "/" + Strip(path.value)
  {
    if Given(path) then
      var p := Strip(path.value);
      if StartsWith(p, "/") then p else "/" + p
    else
      DefaultWebhookPath
  }

  /**
   * `upsert_config`, as written: the base URL and the token must be set;
   * both are then normalised, the external URL is trimmed when set and
   * the path is normalised.
   */
  function UpsertConfig(c: ConfigInput): (r: Result<StoredConfig, string>)
    ensures r.Failure? <==> !Given(c.baseUrl) || !Given(c.token)
    ensures r.Failure? ==> r.error == UrlAndTokenRequired
    ensures r.Success? ==>
              r.value.baseUrl == TrimUrl(c.baseUrl.value) && r.value.token == Strip(c.token.value)
              && r.value.externalUrl == (if Given(c.externalUrl) then Some(TrimUrl(c.externalUrl.value)) else c.externalUrl)
              && r.value.path == WebhookPath(c.path) && r.value.isActive == c.isActive
  {
    if !Given(c.baseUrl) || !Given(c.token) then Failure(UrlAndTokenRequired)
    else
      var external := if Given(c.externalUrl) then Some(TrimUrl(c.externalUrl.value)) else c.externalUrl;
      Success(StoredConfig(TrimUrl(c.baseUrl.value), Strip(c.token.value), external, WebhookPath(c.path), c.isActive))
  }

  /** A stored path, submitted again, is stored unchanged. */
  lemma PathIdempotent(path: Option<string>)
    ensures WebhookPath(Some(WebhookPath(path))) == WebhookPath(path)
  {
    PathEnds(path);
    SlashPathFixed(WebhookPath(path));
  }

  lemma PathEnds(path: Option<string>)
    ensures var p := WebhookPath(path); |p| > 0 && p[0] == '/' && !IsSpace(p[|p| - 1])
  {
    if Given(path) {
      SlashPrefixed(Strip(path.value));
    } else {
      var d := DefaultWebhookPath;
      assert d[0] == '/' && d[|d| - 1] == 'a';
    }
  }

  lemma SlashPrefixed(q: string)
    requires q == [] || !IsSpace(q[|q| - 1])
    ensures var p := if StartsWith(q, "/") then q else "/" + q;
            |p| > 0 && p[0] == '/' && !IsSpace(p[|p| - 1])
  {
    if StartsWith(q, "/") {
      assert q[..1][0] == q[0];
    } else {
      var p := "/" + q;
      assert p[|p| - 1] == (if q == [] then '/' else q[|q| - 1]);
    }
  }

  lemma SlashPathFixed(p: string)
    requires |p| > 0 && p[0] == '/' && !IsSpace(p[|p| - 1])
    ensures WebhookPath(Some(p)) == p
  {
    StripOfTrimmed(p);
  }

  /**
   * The required-field check looks at the text before it is normalised:
   * a base URL of only slashes and a token of only blanks pass it and are
   * stored empty.
   */
  lemma EmptySettingsAccepted()
    ensures UpsertConfig(ConfigInput(Some("/"), Some(" "), None, None, true))
            == Success(StoredConfig("", "", None, DefaultWebhookPath, true))
  {
    SlashesTrimmed();
    BlankStripped();
  }

  lemma SlashesTrimmed()
    ensures TrimUrl("/") == ""
  {
    StripOfTrimmed("/");
  }

  lemma BlankStripped()
    ensures Strip(" ") == ""
  {
  }

  /** `upsert_config` with the required-field check made after normalisation. */
  function UpsertConfigChecked(c: ConfigInput): (r: Result<StoredConfig, string>)
    ensures r.Success? ==> r.value.baseUrl != [] && r.value.token != []
    ensures r.Success? <==> UpsertConfig(c).Success? && UpsertConfig(c).value.baseUrl != [] && UpsertConfig(c).value.token != []
    ensures r.Success? ==> r == UpsertConfig(c)
    ensures r.Failure? ==> r.error == UrlAndTokenRequired
  {
    match UpsertConfig(c)
    case Failure(e) => Failure(e)
    case Success(stored) =>
      if stored.baseUrl == [] || stored.token == [] then Failure(UrlAndTokenRequired) else Success(stored)
  }

  // ---------------------------------------------------------------- webhook

  /** The JSON body the webhook answers with. */
  datatype WebhookReply =
    | Ignored(reason: string)
    | Error(reason: string, detail: Option<string>)
    | Ok(conversationId: Value)
    | Raised

  /** `v.get(k)` on a value that must be a dict; `None` where Python raises (no `get` on that type). */
  function DictGet(v: Value, k: string): (r: Option<Value>)
    ensures r.Some? <==> v.VDict?
    ensures v.VDict? ==> r.value == Lookup(v.entries, k)
  {
    if v.VDict? then Some(Lookup(v.entries, k)) else None
  }

  /** `payload.get(k) or {}`: the sub-object, or an empty dict when it is missing or falsy. */
  function SubObject(payload: Dict, k: string): (r: Value)
    ensures Truthy(Lookup(payload, k)) ==> r == Lookup(payload, k)
    ensures !Truthy(Lookup(payload, k)) ==> r == VDict([])
  {
    PyOr(Lookup(payload, k), VDict([]))
  }

  /** The event, sender and privacy filter: only a public message from a contact, coming in, is answered. */
  predicate FromCustomer(payload: Dict, senderType: Value) {
    senderType == VStr("contact") && Lookup(payload, "message_type") == VStr("incoming")
    && !Truthy(Lookup(payload, "private"))
  }

  /**
   * `chatwoot_webhook`: a body that is not JSON is ignored; a payload that
   * is not a dict raises; an event other than `message_created` is
   * ignored; a message that is not an incoming public message from a
   * contact is ignored (no reply loops); the conversation id comes from
   * the conversation object or the payload, the account id from the
   * account object or the setting, and either missing is an error; then
   * the send decides between `ok` and `send_failed`. A sender,
   * conversation or account that is set to something other than a dict
   * raises.
   */
  function ChatwootWebhook(body: string, loads: string -> Option<Value>, configuredAccount: Value,
                           send: (Value, Value) -> (bool, string)): (r: WebhookReply)
    ensures loads(body).None? ==> r == Ignored("invalid_json")
    ensures (loads(body).Some? && !loads(body).value.VDict?) ==> r == Raised
    ensures (loads(body).Some? && loads(body).value.VDict?
             && Lookup(loads(body).value.entries, "event") != VStr("message_created")) ==> r == Ignored("event_type")
    ensures r.Ok? ==>
              loads(body).Some? && loads(body).value.VDict?
              && var payload := loads(body).value.entries;
                 Lookup(payload, "event") == VStr("message_created")
                 && DictGet(SubObject(payload, "sender"), "type").Some?
                 && FromCustomer(payload, DictGet(SubObject(payload, "sender"), "type").value)
                 && Truthy(r.conversationId) && DictGet(SubObject(payload, "conversation"), "id").Some?
                 && r.conversationId == PyOr(DictGet(SubObject(payload, "conversation"), "id").value,
                                             Lookup(payload, "conversation_id"))
    ensures r.Error? && r.reason == "send_failed" ==> r.detail.Some?
    ensures (loads(body).Some? && loads(body).value.VDict?
             && Lookup(loads(body).value.entries, "event") == VStr("message_created"))
              ==> var payload := loads(body).value.entries;
                  var senderType := DictGet(SubObject(payload, "sender"), "type");
                  (senderType.None? ==> r == Raised)
                  && (senderType.Some? && !FromCustomer(payload, senderType.value) ==> r == Ignored("sender_direction_or_private"))
                  && ((senderType.Some? && FromCustomer(payload, senderType.value))
                        ==> r == AnswerConversation(payload, configuredAccount, send))
  {
    match loads(body)
    case None => Ignored("invalid_json")
    case Some(v) =>
      if !v.VDict? then Raised
      else
        var payload := v.entries;
        if Lookup(payload, "event") != VStr("message_created") then Ignored("event_type")
        else
          match DictGet(SubObject(payload, "sender"), "type")
          case None => Raised
          case Some(senderType) =>
            if !FromCustomer(payload, senderType) then Ignored("sender_direction_or_private")
            else AnswerConversation(payload, configuredAccount, send)
  }

  /** The part of `chatwoot_webhook` after the filters: find the conversation and account, then send. */
  function AnswerConversation(payload: Dict, configuredAccount: Value, send: (Value, Value) -> (bool, string)): (r: WebhookReply)
    ensures (DictGet(SubObject(payload, "conversation"), "id").None? || DictGet(SubObject(payload, "account"), "id").None?)
              ==> r == Raised
    ensures r.Ok? ==> Truthy(r.conversationId)
                      && r.conversationId == PyOr(DictGet(SubObject(payload, "conversation"), "id").value,
                                                  Lookup(payload, "conversation_id"))
                      && Truthy(PyOr(DictGet(SubObject(payload, "account"), "id").value, configuredAccount))
                      && send(PyOr(DictGet(SubObject(payload, "account"), "id").value, configuredAccount), r.conversationId).0
    ensures r.Error? && r.reason == "send_failed" ==> r.detail.Some?
    ensures (DictGet(SubObject(payload, "conversation"), "id").Some? && DictGet(SubObject(payload, "account"), "id").Some?)
              ==> var conversationId := PyOr(DictGet(SubObject(payload, "conversation"), "id").value, Lookup(payload, "conversation_id"));
                  var accountId := PyOr(DictGet(SubObject(payload, "account"), "id").value, configuredAccount);
                  (!Truthy(conversationId) ==> r == Error("missing_conversation_id", None))
                  && (Truthy(conversationId) && !Truthy(accountId) ==> r == Error("missing_account_id", None))
                  && ((Truthy(conversationId) && Truthy(accountId) && !send(accountId, conversationId).0)
                        ==> r == Error("send_failed", Some(send(accountId, conversationId).1)))
                  && ((Truthy(conversationId) && Truthy(accountId) && send(accountId, conversationId).0)
                        ==> r == Ok(conversationId))
  {
    match (DictGet(SubObject(payload, "conversation"), "id"), DictGet(SubObject(payload, "account"), "id"))
    case (None, _) => Raised
    case (_, None) => Raised
    case (Some(fromConversation), Some(fromAccount)) =>
      var conversationId := PyOr(fromConversation, Lookup(payload, "conversation_id"));
      var accountId := PyOr(fromAccount, configuredAccount);
      if !Truthy(conversationId) then Error("missing_conversation_id", None)
      else if !Truthy(accountId) then Error("missing_account_id", None)
      else
        var (sent, detail) := send(accountId, conversationId);
        if !sent then Error("send_failed", Some(detail)) else Ok(conversationId)
  }

  /** Messages the bot itself sends (outgoing) are never answered, whatever the send would do. */
  lemma OutgoingNeverAnswered(body: string, loads: string -> Option<Value>, configuredAccount: Value,
                              send: (Value, Value) -> (bool, string), other: (Value, Value) -> (bool, string))
    requires loads(body).Some? && loads(body).value.VDict?
    requires Lookup(loads(body).value.entries, "message_type") != VStr("incoming")
    ensures !ChatwootWebhook(body, loads, configuredAccount, send).Ok?
    ensures ChatwootWebhook(body, loads, configuredAccount, send) == ChatwootWebhook(body, loads, configuredAccount, other)
  {
  }

  /** The top-level `conversation_id` is used when the conversation object has no id. */
  lemma ConversationIdFallback(payload: Dict, configuredAccount: Value, send: (Value, Value) -> (bool, string))
    requires !Truthy(Lookup(payload, "conversation"))
    requires Truthy(Lookup(payload, "conversation_id"))
    requires DictGet(SubObject(payload, "account"), "id").Some?
    requires Truthy(PyOr(DictGet(SubObject(payload, "account"), "id").value, configuredAccount))
    requires send(PyOr(DictGet(SubObject(payload, "account"), "id").value, configuredAccount), Lookup(payload, "conversation_id")).0
    ensures AnswerConversation(payload, configuredAccount, send) == Ok(Lookup(payload, "conversation_id"))
  {
    assert Get([], "id").None?;
  }

  /** With no account anywhere, the webhook reports it and sends nothing. */
  lemma MissingAccountReported(payload: Dict, send: (Value, Value) -> (bool, string))
    requires Truthy(PyOr(DictGet(SubObject(payload, "conversation"), "id").GetOr(VNone), Lookup(payload, "conversation_id")))
    requires DictGet(SubObject(payload, "conversation"), "id").Some?
    requires !Truthy(Lookup(payload, "account"))
    ensures AnswerConversation(payload, VNone, send) == Error("missing_account_id", None)
  {
    assert Get([], "id").None?;
  }
}
