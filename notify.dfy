/** Delivery of the final message to the configured chat services:
    Telegram (a bot and a chat), Discord (a webhook) and Slack (a webhook).

    The HTTP requests are not modelled: a delivery is the request the
    checker would send, and sending it is what "the sink received the
    message" means here. Each request is attempted whatever became of the
    ones before it. */
module Notify {
  import opened Wrappers
  import opened Text

  /** The secrets read from the environment at start-up; a variable that is
      unset is `None`. */
  datatype SinkConfig = SinkConfig(
    telegramBotToken: Option<string>,
    telegramChatId: Option<string>,
    discordWebhookUrl: Option<string>,
    slackWebhookUrl: Option<string>)

  /** Python's truth test of an environment value: set and not empty. */
  predicate IsSet(v: Option<string>)
  {
    v.Some? && v.value != ""
  }

  datatype Sink = Telegram | Discord | Slack

  /** A service is configured when every secret it needs is set; Telegram
      needs both the bot token and the chat id. */
  predicate Configured(c: SinkConfig, s: Sink)
  {
    match s
    case Telegram => IsSet(c.telegramBotToken) && IsSet(c.telegramChatId)
    case Discord => IsSet(c.discordWebhookUrl)
    case Slack => IsSet(c.slackWebhookUrl)
  }

  /** One HTTP POST to a service, with the fields of its JSON payload. */
  datatype Delivery =
    | TelegramPost(url: string, chatId: string, text: string, parseMode: string)
    | DiscordPost(url: string, content: string)
    | SlackPost(url: string, text: string)
  {
    function Target(): Sink
    {
      match this
      case TelegramPost(_, _, _, _) => Telegram
      case DiscordPost(_, _) => Discord
      case SlackPost(_, _) => Slack
    }
  }

  // ---------------------------------------------------------------- Telegram

  /** The characters the Telegram sender escapes for MarkdownV2. */
  const MarkdownSpecials: set<char> := {'.', '-', '(', ')', '!'}

  /** The Telegram sender's chain of `replace` calls, one per special
      character, in the source's order. */
  function TelegramSafe(message: string): string
  {
    var a := Replace(message, ".", "\\.");
    var b := Replace(a, "-", "\\-");
    var c := Replace(b, "(", "\\(");
    var d := Replace(c, ")", "\\)");
    Replace(d, "!", "\\!")
  }

  /** The chain escapes in one pass: no `replace` touches what an earlier one
      inserted, since the backslash is not one of the special characters. */
  lemma TelegramSafeIsEscape(message: string)
    ensures TelegramSafe(message) == Escape(message, MarkdownSpecials)
  {
    EscapeNothing(message);
    EscapeOneMore(message, {}, '.');
    EscapeOneMore(message, {'.'}, '-');
    EscapeOneMore(message, {'.', '-'}, '(');
    EscapeOneMore(message, {'.', '-', '('}, ')');
    EscapeOneMore(message, {'.', '-', '(', ')'}, '!');
    assert {} + {'.'} == {'.'};
    assert {'.'} + {'-'} == {'.', '-'};
    assert {'.', '-'} + {'('} == {'.', '-', '('};
    assert {'.', '-', '('} + {')'} == {'.', '-', '(', ')'};
    assert {'.', '-', '(', ')'} + {'!'} == MarkdownSpecials;
  }

  /** The Telegram text is one character longer per special character, and
      unescaping it gives the message back: exactly one backslash went in
      before each special character and nothing else changed. */
  lemma TelegramSafeSpec(message: string)
    ensures |TelegramSafe(message)| == |message| + CountIn(message, MarkdownSpecials)
    ensures Unescape(TelegramSafe(message), MarkdownSpecials) == message
  {
    TelegramSafeIsEscape(message);
    EscapeLength(message, MarkdownSpecials);
    EscapeRoundTrip(message, MarkdownSpecials);
  }

  /** The Bot API endpoint that sends a message as the bot with `token`. */
  function TelegramUrl(token: string): string
  {
    "https://api.telegram.org/bot" + token + "/sendMessage"
  }

  // ---------------------------------------------------------------- Slack

  /** The Slack sender's `replace('**', '*')`. */
  function SlackSafe(message: string): string
  {
    Replace(message, "**", "*")
  }

  /** The text without its asterisks. */
  function Unstarred(s: string): (r: string)
    ensures |r| <= |s|
    ensures '*' !in r
  {
    if s == [] then [] else (if s[0] == '*' then [] else [s[0]]) + Unstarred(s[1..])
  }

  /** Collapsing `**` only ever removes asterisks: the text around them is
      kept, in order, and the result is never longer, nor shorter than half. */
  lemma {:induction false} SlackSafeKeepsText(s: string)
    ensures Unstarred(SlackSafe(s)) == Unstarred(s)
    ensures |s| <= 2 * |SlackSafe(s)| && |SlackSafe(s)| <= |s|
    decreases |s|
  {
    if |s| >= 2 {
      if s[..2] == "**" {
        SlackSafeKeepsText(s[2..]);
        assert s[0] == '*' && s[1] == '*';
        assert Unstarred(s) == Unstarred(s[1..]) == Unstarred(s[2..]) by {
          assert s[1..][1..] == s[2..];
        }
        assert Unstarred("*" + SlackSafe(s[2..])) == Unstarred(SlackSafe(s[2..])) by {
          assert ("*" + SlackSafe(s[2..]))[1..] == SlackSafe(s[2..]);
        }
      } else {
        SlackSafeKeepsText(s[1..]);
        assert ([s[0]] + SlackSafe(s[1..]))[1..] == SlackSafe(s[1..]);
      }
    }
  }

  /** A run of `k` asterisks. */
  function Stars(k: nat): (r: string)
    ensures |r| == k && forall i :: 0 <= i < k ==> r[i] == '*'
  {
    if k == 0 then [] else "*" + Stars(k - 1)
  }

  /** The collapse scans from the left: a leading `**` becomes `*`. */
  lemma SlackSafePair(t: string)
    ensures SlackSafe("**" + t) == "*" + SlackSafe(t)
  {
    var pair := "**" + t;
    assert pair[..2] == "**" && pair[2..] == t;
  }

  /** A leading character that does not start a `**` is kept: any
      character but `*`, and a `*` not followed by another. */
  lemma KeptHead(c: char, t: string)
    requires c != '*' || t == [] || t[0] != '*'
    ensures SlackSafe([c] + t) == [c] + SlackSafe(t)
  {
    var s := [c] + t;
    assert s[1..] == t;
    if t == [] {
      assert s == [c];
    } else {
      assert s[..2] == [c, t[0]] != "**";
    }
  }

  /** A maximal run of `k` asterisks becomes a run of `(k + 1) / 2`: each
      pair collapses to one and an odd one out is kept. */
  lemma {:induction false} SlackSafeStarRun(k: nat, t: string)
    requires t == [] || t[0] != '*'
    ensures SlackSafe(Stars(k) + t) == Stars((k + 1) / 2) + SlackSafe(t)
    decreases k
  {
    if k == 0 {
      assert Stars(0) + t == t;
    } else if k == 1 {
      KeptHead('*', t);
      assert Stars(1) + t == ['*'] + t;
    } else {
      var rest := Stars(k - 2) + t;
      StarsPair(k, t);
      SlackSafePair(rest);
      SlackSafeStarRun(k - 2, t);
      StarsPair((k + 1) / 2 + 1, SlackSafe(t));
    }
  }

  /** A run of at least two asterisks starts with `**`. */
  lemma StarsPair(k: nat, t: string)
    requires k >= 2
    ensures Stars(k) + t == "**" + (Stars(k - 2) + t)
    ensures Stars(k - 1) + t == "*" + (Stars(k - 2) + t)
  {
  }

  /** A message without `**` goes to Slack unchanged. */
  lemma SlackSafeWithoutBold(s: string)
    requires !Occurs("**", s)
    ensures SlackSafe(s) == s
  {
    ReplaceAbsent(s, "**", "*");
  }

  // ---------------------------------------------------------------- dispatch

  /** The requests one notification makes, in the source's order: the
      Telegram text escaped for MarkdownV2, Discord's unchanged, Slack's
      with `**` collapsed. */
  function Deliveries(c: SinkConfig, message: string): seq<Delivery>
  {
    Requests(c, TelegramSafe(message), message, SlackSafe(message))
  }

  /** The requests for the given per-service texts, in the source's order. */
  function Requests(c: SinkConfig, telegramText: string, discordText: string, slackText: string): seq<Delivery>
  {
    (if Configured(c, Telegram)
     then [TelegramPost(TelegramUrl(c.telegramBotToken.value), c.telegramChatId.value, telegramText, "MarkdownV2")]
     else [])
    + (if Configured(c, Discord) then [DiscordPost(c.discordWebhookUrl.value, discordText)] else [])
    + (if Configured(c, Slack) then [SlackPost(c.slackWebhookUrl.value, slackText)] else [])
  }

  /** Every configured service gets exactly one request, the others none,
      each carrying the message in that service's form. */
  lemma DeliveriesOncePerSink(c: SinkConfig, message: string)
    ensures forall i, j :: 0 <= i < j < |Deliveries(c, message)| ==>
              Deliveries(c, message)[i].Target() != Deliveries(c, message)[j].Target()
    ensures forall s: Sink :: Configured(c, s) <==> exists i :: 0 <= i < |Deliveries(c, message)| && Deliveries(c, message)[i].Target() == s
    ensures forall d :: d in Deliveries(c, message) ==>
              match d
              case TelegramPost(url, chat, text, mode) =>
                url == TelegramUrl(c.telegramBotToken.value) && chat == c.telegramChatId.value &&
                text == TelegramSafe(message) && mode == "MarkdownV2"
              case DiscordPost(url, content) => url == c.discordWebhookUrl.value && content == message
              case SlackPost(url, text) => url == c.slackWebhookUrl.value && text == SlackSafe(message)
  {
    var ds := Deliveries(c, message);
    assert ds == Requests(c, TelegramSafe(message), message, SlackSafe(message));
    RequestsOncePerSink(c, TelegramSafe(message), message, SlackSafe(message));
  }

  /** `DeliveriesOncePerSink` for any per-service texts. */
  lemma RequestsOncePerSink(c: SinkConfig, tg: string, dc: string, sl: string)
    ensures forall i, j :: 0 <= i < j < |Requests(c, tg, dc, sl)| ==>
              Requests(c, tg, dc, sl)[i].Target() != Requests(c, tg, dc, sl)[j].Target()
    ensures forall s: Sink :: Configured(c, s) <==> exists i :: 0 <= i < |Requests(c, tg, dc, sl)| && Requests(c, tg, dc, sl)[i].Target() == s
    ensures forall d :: d in Requests(c, tg, dc, sl) ==>
              match d
              case TelegramPost(url, chat, text, mode) =>
                url == TelegramUrl(c.telegramBotToken.value) && chat == c.telegramChatId.value &&
                text == tg && mode == "MarkdownV2"
              case DiscordPost(url, content) => url == c.discordWebhookUrl.value && content == dc
              case SlackPost(url, text) => url == c.slackWebhookUrl.value && text == sl
  {
    var ds := Requests(c, tg, dc, sl);
    forall s: Sink | Configured(c, s)
      ensures exists i :: 0 <= i < |ds| && ds[i].Target() == s
    {
      var k := (if s == Telegram then 0 else if Configured(c, Telegram) then 1 else 0)
             + (if s == Slack && Configured(c, Discord) then 1 else 0);
      assert ds[k].Target() == s;
    }
  }

  /** `send_notification`: each configured service is sent the message in
      turn; the flag records whether any was, for the "no service is
      configured" log line. */
  method SendNotification(c: SinkConfig, message: string) returns (sent: seq<Delivery>, anyConfigured: bool)
    ensures sent == Deliveries(c, message)
    ensures anyConfigured <==> exists s: Sink :: Configured(c, s)
  {
    sent, anyConfigured := [], false;
    if IsSet(c.telegramBotToken) && IsSet(c.telegramChatId) {
      sent := sent + [TelegramPost(TelegramUrl(c.telegramBotToken.value), c.telegramChatId.value, TelegramSafe(message), "MarkdownV2")];
      anyConfigured := true;
    }
    if IsSet(c.discordWebhookUrl) {
      sent := sent + [DiscordPost(c.discordWebhookUrl.value, message)];
      anyConfigured := true;
    }
    if IsSet(c.slackWebhookUrl) {
      sent := sent + [SlackPost(c.slackWebhookUrl.value, SlackSafe(message))];
      anyConfigured := true;
    }
    if !anyConfigured {
      assert !Configured(c, Telegram) && !Configured(c, Discord) && !Configured(c, Slack);
    }
  }
}
