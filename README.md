# domain-watchdog — a Dafny model of `check_domains.py`

`check_domains.py` is a scheduled health check. It reads a list of domains
from a file. For each domain it looks up the registration expiry over WHOIS
and the expiry of the TLS certificate served on port 443. It alerts when
either expiry falls on a notification day, and it also alerts when a lookup
fails. All alerts of a run are joined into one message, and that message is
sent to every configured chat service (Telegram, Discord, Slack).

This project models the decision logic of that script and proves its
properties:

- **NotifySchedule** (`schedule.dfy`): the should-notify test used by both
  checks. A day count notifies when it is in the schedule's list of specific
  days, or when it lies in the daily window `[0, N]`. The two shipped
  schedules are constants.
- **Calendar** (`calendar.dfy`): dates, wall-clock readings and instants.
  An instant is an integer number of microseconds since the Unix epoch,
  which is the resolution of Python's `datetime` and `timedelta`. Days left
  is `(expiry - today).days`, the floor of the difference in whole days.
  Day numbers come from the proleptic Gregorian calendar. A lemma proves
  that consecutive calendar days have consecutive day numbers.
- **Checks** (`checks.dfy`): the WHOIS check and the TLS check of one
  domain. Each turns a lookup outcome into at most one alert. Every
  exception the source catches is a case of the outcome datatypes. The
  alert texts are built the way the source's f-strings build them.
- **Notify** (`notify.dfy`): the choice of services and the request each one
  gets. This covers Telegram's chain of `replace` calls for MarkdownV2 and
  Slack's `**` to `*` collapse.
- **DomainList** (`domainlist.dfy`): the domain-file loader, written as a
  loop over the file's lines.
- **Runner** (`runner.dfy`): the run over all domains, written as a loop.
  It collects the alerts, joins them with a blank line and dispatches the
  message.
- **Text** (`text.dfy`) and **Wrappers** (`wrappers.dfy`): the Python
  string operations the script uses (`strip`, `replace`, `join`, `str(int)`,
  zero-padded formatting) and an `Option` type.

The current time, the WHOIS client, the TLS probe and the environment are
inputs. `today` is an instant. `whoisOf(i)` and `sslOf(i)` are what the
network gives for the lookups of the `i`-th domain of the list during this
run. Each place of the list is looked up on its own, so a domain listed
twice may get two different outcomes. The sink secrets are a `SinkConfig`
record.

Some behaviours of the code are easy to miss, and the model keeps them:

- A read error part-way through the domain file is only logged. The loader
  then returns the domains it had already appended, not an empty list.
  `GetDomainsFromFile` returns the domains of the lines read before the
  error.
- An empty WHOIS expiration list makes `expiry_date[0]` raise `IndexError`.
  The `except` clause turns that into an error alert, so the domain is not
  treated as having no date. A non-empty text value has no `.tzinfo`, so
  it also becomes an error alert. An empty text value is falsy and counts
  as "not found".
- An environment variable set to the empty string counts as unset, because
  the code uses Python truthiness.

## Model

| member | source | states |
|---|---|---|
| NotifySchedule.ShouldNotify | check_domains.py:108-111 | the flag of both checks: listed day count, or a count in `[0, window]` |
| NotifySchedule.SpecificDayNotifies | check_domains.py:108 | a day count in the specific-days list notifies, whatever the window |
| NotifySchedule.WindowDayNotifies | check_domains.py:109-111 | a day count in `[0, window]` notifies even when it is not listed |
| NotifySchedule.UnlistedDay | check_domains.py:108-111 | outside the list, a day count notifies iff it lies in `[0, window]`; negative counts and counts past the window never notify |
| NotifySchedule.ExpiredIsSilent | check_domains.py:142-145 | with no negative listed day, an already-expired date never notifies |
| NotifySchedule.ShippedSchedulesBounded | check_domains.py:14-19 | under the shipped schedules a notification needs 0..60 days left (WHOIS) or 0..30 (SSL) |
| NotifySchedule.WhoisScheduleExamples | check_domains.py:14-15 | WHOIS schedule: 45 and 5 notify, 20 and -1 do not |
| NotifySchedule.SslScheduleExamples | check_domains.py:18-19 | SSL schedule: 7 and 2 notify, 10 does not |
| Calendar.DaysLeft | check_domains.py:103-104 | `daysLeft * day <= expiry - today < (daysLeft + 1) * day`, also when the expiry is past |
| Calendar.DaysLeftUnique | check_domains.py:137-138 | any day count within those bounds is `DaysLeft`, so it is exactly the floor |
| Calendar.DaysLeftPast | check_domains.py:103-104 | days left is negative exactly when the expiry instant is before today |
| Calendar.InstantAt | check_domains.py:103 | the instant of a wall-clock reading is the start of its date's day, shifted by the UTC offset, plus its time of day, so it lies within that day |
| Calendar.DaysFromCivil | check_domains.py:103 | the proleptic Gregorian day number of a date, counted from 1970-01-01 (its properties are the two lemmas below) |
| Calendar.DaysLeftBetweenReadings | check_domains.py:103-104 | at one UTC offset, days left are the difference of the day numbers, less one when the expiry's time of day is earlier than today's |
| Calendar.NextDateIsNextDay | check_domains.py:103 | consecutive calendar days (across month ends, year ends and leap days) have consecutive day numbers |
| Calendar.EpochIsDayZero | check_domains.py:103 | 1970-01-01 is day 0 |
| Calendar.IsoDate | check_domains.py:117 | `str(date)` is 10 characters `YYYY-MM-DD` whose three digit fields read back as year, month and day |
| Checks.AsUtc | check_domains.py:100-101 | a naive datetime gets offset 0 with the same wall-clock reading; an aware one is unchanged |
| Checks.ValueExpiry | check_domains.py:99-101 | `None` and empty text are "not found"; other text fails with the `tzinfo` error; a datetime resolves, dated on its own wall clock |
| Checks.WhoisExpiry | check_domains.py:95-97 | a lookup exception fails with its message; an empty list fails with the `IndexError` message |
| Checks.CheckWhois | check_domains.py:92-124 | an alert is a WHOIS alert naming the domain; a due alert satisfies the WHOIS schedule; not found gives none; a failure gives the error alert |
| Checks.WhoisListUsesFirst | check_domains.py:97 | a list of dates is checked as its first element |
| Checks.WhoisEmptyListIsError | check_domains.py:97 | an empty list gives an error alert, not silence |
| Checks.WhoisMissingIsSilent | check_domains.py:119-120 | a missing expiration date gives no alert |
| Checks.WhoisLookupErrorAlerts | check_domains.py:121-123 | any failed lookup gives an error alert naming the domain with the exception's message |
| Checks.WhoisDateAlert | check_domains.py:99-118 | a datetime alerts iff the floor of the days left satisfies the WHOIS schedule, and the alert carries that count and the date |
| Checks.NaiveIsUtc | check_domains.py:100-101 | a naive datetime gives the same result as the same reading in UTC |
| Checks.CheckSsl | check_domains.py:126-162 | an alert is an SSL alert naming the domain; a due alert satisfies the SSL schedule; every failure alerts |
| Checks.SslFailureKinds | check_domains.py:153-161 | timeout, SSL/DNS error and any other exception give three different alert kinds |
| Checks.SslCertAlert | check_domains.py:133-152 | a certificate alerts iff its `notAfter`, read as UTC, leaves a day count the SSL schedule accepts; otherwise nothing |
| Checks.CheckDomain | check_domains.py:179-187 | one alert per check that produced one, so at most two; the WHOIS alert, when there is one, is first, and the SSL alert, when there is one, is last |
| Checks.CheckDomainOrder | check_domains.py:179-187 | every alert of a domain names it, and a WHOIS alert always comes before an SSL alert |
| Checks.CheckDomainBoth | check_domains.py:179-187 | when both checks alert, the domain's alerts are exactly the WHOIS alert then the SSL alert |
| Checks.LookupErrorBesideQuietCert | check_domains.py:179-187 | a failed WHOIS lookup beside a certificate not due gives exactly the WHOIS error alert |
| Checks.Opening | check_domains.py:114-161 | the text each alert kind's f-string puts before the domain |
| Checks.Closing | check_domains.py:114-161 | the text each alert kind's f-string puts after the domain, with `str(days)` and `str(date)` |
| Checks.Render | check_domains.py:114-161 | an alert's text is never empty and names the domain |
| Text.Strip | check_domains.py:35 | `strip()` removes whitespace from both ends and leaves none there; the result is empty iff the line is all whitespace |
| Text.StripUnique | check_domains.py:35 | whitespace + trimmed text + whitespace strips to that text |
| Text.StripIdempotent | check_domains.py:35 | stripping twice is stripping once |
| Text.Join | check_domains.py:190 | `sep.join(parts)`: the parts with one separator between neighbours (properties in the two rows below) |
| Text.JoinConcat | check_domains.py:190 | joining two lists puts one separator between the two joined halves, so order is kept |
| Text.JoinEmpty | check_domains.py:190 | with a non-empty separator, a join is empty only for no parts or one empty part |
| Text.NatToString | check_domains.py:116 | `str(n)` is a non-empty string of decimal digits with no leading zero |
| Text.NatToStringRoundTrip | check_domains.py:116 | reading back the digits of `str(n)` gives `n` |
| Text.IntToString | check_domains.py:150 | `str(i)` starts with `-` exactly for negative `i`, followed by digits that read back as the absolute value of `i` |
| Text.ZeroPadded | check_domains.py:117 | zero-padding keeps the value and pads to the requested width |
| Text.Replace | check_domains.py:67 | `s.replace(pat, rep)` from left to right without overlap; a replacement no longer than its pattern never lengthens the text, one no shorter never shortens it |
| Text.EscapeRoundTrip | check_domains.py:50 | unescaping escaped text gives the original back |
| Text.EscapeLength | check_domains.py:50 | escaping adds exactly one character per special character |
| Text.EscapeOneMore | check_domains.py:50 | one more `replace(c, '\\' + c)` on escaped text escapes `c` too |
| Notify.TelegramUrl | check_domains.py:49 | the bot's `sendMessage` URL built from the token |
| Notify.TelegramSafe | check_domains.py:50 | the five chained `replace` calls, in the source's order |
| Notify.TelegramSafeIsEscape | check_domains.py:50 | the chain of five `replace` calls is one-pass escaping of `. - ( ) !` |
| Notify.TelegramSafeSpec | check_domains.py:50 | the Telegram text is longer by the number of `. - ( ) !` and unescapes to the message, so only those characters gained a backslash |
| Notify.SlackSafe | check_domains.py:67 | `message.replace('**', '*')` |
| Notify.SlackSafePair | check_domains.py:67 | a leading `**` becomes `*` and the scan goes on after it |
| Notify.KeptHead | check_domains.py:67 | a leading character that does not start a `**` is kept unchanged |
| Notify.SlackSafeStarRun | check_domains.py:67 | a maximal run of `k` asterisks becomes `(k + 1) / 2` of them, the rest of the text collapsing independently |
| Notify.SlackSafeKeepsText | check_domains.py:67 | the `**` collapse keeps every non-asterisk character in order and at least half the length, and never lengthens the text |
| Notify.SlackSafeWithoutBold | check_domains.py:67 | a message without `**` reaches Slack unchanged |
| Notify.Configured | check_domains.py:75-83 | Telegram needs a non-empty token and chat id; Discord and Slack each need a non-empty webhook URL |
| Notify.Deliveries | check_domains.py:73-88 | the requests of one notification in the source's order, each service's text in its own form |
| Notify.DeliveriesOncePerSink | check_domains.py:73-88 | each configured service gets exactly one request and the others none; Telegram needs token and chat id; each payload has the message in that service's form |
| Notify.SendNotification | check_domains.py:73-88 | sends the requests `Deliveries` lists; the flag is set iff some service is configured |
| DomainList.GetDomainsFromFile | check_domains.py:29-44 | returns the domains of the lines read, also when the read fails part-way; none for a missing file |
| DomainList.IsDomainLine | check_domains.py:37 | a stripped line is kept when non-empty and not starting with `#` |
| DomainList.DomainsIn | check_domains.py:34-38 | never more domains than lines |
| DomainList.MissingFileIsEmpty | check_domains.py:40-41 | a missing file gives no domains |
| DomainList.DomainsInConcat | check_domains.py:34-38 | the loaded domains keep file order |
| DomainList.DomainsAreCleanLines | check_domains.py:35-37 | each domain is a stripped line of the file, non-empty, not a comment, with no whitespace at either end |
| DomainList.EveryDomainLineLoaded | check_domains.py:35-38 | every line that strips to a non-empty, non-comment text is loaded |
| Runner.CheckAllDomains | check_domains.py:166-193 | the alerts are those of `AllAlerts`, the `i`-th domain checked with the `i`-th lookups; nothing is sent without alerts; otherwise the joined message goes to `Deliveries` once |
| Runner.AllAlerts | check_domains.py:176-187 | per domain in list order, the WHOIS alert then the SSL alert, each when present |
| Runner.NextDomainAlerts | check_domains.py:176-187 | one turn of the loop, appending each present alert of the next domain, extends the alerts of the domains so far to those of one more domain |
| Runner.NotifyIfAlerts | check_domains.py:189-193 | with alerts, the joined message goes to `Deliveries` once; without, nothing is sent |
| Runner.FlattenSplit | check_domains.py:176-187 | collecting the alerts of the first `m + n` places is collecting the first `m`, then the next `n` |
| Runner.AllAlertsBound | check_domains.py:176-187 | at most two alerts per domain |
| Runner.AllAlertsConcat | check_domains.py:176-187 | alerts are ordered by domain: a run over `a + b` is the run over `a` followed by the run over `b` with the lookups after those of `a` |
| Runner.AllAlertsCons | check_domains.py:176-187 | the first domain's alerts come first |
| Runner.OneDomain | check_domains.py:179-187 | a run over one domain gives that domain's WHOIS then SSL alerts |
| Runner.ListedTwice | check_domains.py:176-187 | a domain listed twice is checked twice, each time with its own lookups |
| Runner.AlertsNameListedDomains | check_domains.py:176-187 | every alert names a domain of the list |
| Runner.AlertMessage | check_domains.py:190 | the alert texts joined by a blank line |
| Runner.AlertMessageEmpty | check_domains.py:189-191 | the joined message is empty exactly when there are no alerts |
| Runner.AlertMessageAppend | check_domains.py:190 | one more alert appends a blank line and its text |
| Runner.AlertMessageOne | check_domains.py:190 | a single alert's message is that alert's text alone |
| Runner.TextsAt | check_domains.py:190 | the message's i-th part is the text of the i-th alert |
| Runner.NoDomainsNoDispatch | check_domains.py:172-174 | an empty domain list gives no alerts, hence no dispatch |
| Runner.BothDueOneMessage | check_domains.py:176-191 | one domain with both expiries due gives the WHOIS then the SSL alert, joined by a blank line |

## Left out

- The WHOIS lookup (`whois.whois`), the TCP connection with its 5-second timeout, the TLS handshake and `getpeercert`. These are network I/O and foreign libraries. Their results are the cases of `WhoisOutcome` and `SslOutcome`.
- Parsing the certificate's `notAfter` text with `strptime`, which is library behaviour. The certificate case carries the parsed reading. A missing field or a parse error raises inside the `try`, so it is the `OtherError` case.
- `datetime.now` is an input (`today`).
- The HTTP requests to the services and the handling of their status codes and exceptions. A delivery is the request value. Each one is attempted regardless of the others, so nothing about failures needs modelling.
- Reading the environment variables, which becomes the `SinkConfig` input. Reading the domain file and splitting it into lines is I/O; the loader gets the lines.
- All `print` logging, including the "no service configured" line. `SendNotification` still returns the flag that decides it.
- `DomainList.DomainFile`: the exception types are not distinguished (`FileNotFoundError` against any other exception), because both paths return the list built so far.
- `Checks.WhoisValue`: only `None`, datetimes and text are modelled as values of the expiration field. Other types the client might return, and lists nested in lists, are not.
- `Checks.Render`: it states that the text names the domain and is non-empty, not that different alerts give different texts.
