/** The two expiry checks run for every domain: the registration expiry
    found by a WHOIS lookup, and the expiry of the certificate a TLS server
    presents on port 443. Each check turns what the lookup gave into at most
    one alert.

    The lookups themselves (the WHOIS client, the TCP connection, the TLS
    handshake and the parsing of the certificate's `notAfter` field) are not
    modelled: their results come in as values of `WhoisOutcome` and
    `SslOutcome`, with every exception the source catches as a case. */
module Checks {
  import opened Wrappers
  import opened Text
  import opened Calendar
  import opened NotifySchedule

  // ---------------------------------------------------------------- inputs

  /** An expiration datetime as the WHOIS client returns it: a wall-clock
      reading and, when the datetime is aware, its UTC offset in
      microseconds. A naive datetime has no offset. */
  datatype WhoisDateTime = WhoisDateTime(local: DateTime, utcOffset: Option<int>)

  /** One value of the `expiration_date` field: absent (`None`), a datetime,
      or text the client could not parse into a date. */
  datatype WhoisValue = NoValue | DateTimeValue(dt: WhoisDateTime) | TextValue(text: string)

  /** The field holds one value or a list of them. */
  datatype WhoisField = Single(value: WhoisValue) | Several(values: seq<WhoisValue>)

  /** What the WHOIS lookup gave: a record's expiration field, or the
      message of the exception it raised. */
  datatype WhoisOutcome = LookupFailed(detail: string) | Found(expiration: WhoisField)

  /** What the TLS probe gave: the connection timed out; the handshake or
      the name resolution failed; some other exception (its message); or the
      certificate's `notAfter` reading, which is in GMT. */
  datatype SslOutcome =
    | ConnectTimeout
    | SslOrDnsError
    | OtherError(detail: string)
    | PeerCert(notAfter: DateTime)

  /** Message of the `IndexError` raised on an empty list of dates. */
  const EmptyListError: string := "list index out of range"

  /** Message of the `AttributeError` raised when the date is text. */
  const TextDateError: string := "'str' object has no attribute 'tzinfo'"

  // ---------------------------------------------------------------- alerts

  datatype Alert =
    | WhoisDue(domain: string, daysLeft: int, expires: ValidDay)
    | WhoisError(domain: string, detail: string)
    | SslDue(domain: string, daysLeft: int, expires: ValidDay)
    | SslTimeout(domain: string)
    | SslFailed(domain: string)
    | SslUnknown(domain: string, detail: string)
  {
    /** The alert comes from the registration check. */
    predicate IsWhois()
    {
      WhoisDue? || WhoisError?
    }
  }

  // ---------------------------------------------------------------- WHOIS

  /** How the registration check reads the expiration field: resolved to
      an instant and the date it falls on, absent, or failed. */
  datatype Expiry = Resolved(instant: int, date: ValidDay) | Unresolved | Failed(detail: string)

  /** A naive datetime is taken to be in UTC; an aware one is kept. */
  function AsUtc(w: WhoisDateTime): (u: WhoisDateTime)
    ensures u.local == w.local && u.utcOffset.Some?
    ensures w.utcOffset.None? ==> u.utcOffset == Some(0)
    ensures w.utcOffset.Some? ==> u == w
  {
    if w.utcOffset.None? then w.(utcOffset := Some(0)) else w
  }

  /** One value of the field: `None` and the empty string are falsy, so
      "not found"; other text fails on `.tzinfo`; a datetime is resolved in
      its own zone and its date is the one on its own wall clock. */
  function ValueExpiry(v: WhoisValue): (e: Expiry)
    ensures e.Failed? ==> e.detail == TextDateError
    ensures e.Unresolved? <==> v.NoValue? || v == TextValue("")
    ensures e.Resolved? <==> v.DateTimeValue?
    ensures e.Resolved? ==> e.date == v.dt.local.date
  {
    match v
    case NoValue => Unresolved
    case TextValue(t) => if t == "" then Unresolved else Failed(TextDateError)
    case DateTimeValue(dt) =>
      var u := AsUtc(dt);
      Resolved(InstantAt(u.local, u.utcOffset.value), u.local.date)
  }

  /** The expiry the registration check finds in a lookup outcome: a list
      stands for its first element, and an empty list fails on indexing. */
  function WhoisExpiry(o: WhoisOutcome): (e: Expiry)
    ensures o.LookupFailed? ==> e == Failed(o.detail)
    ensures o.Found? && o.expiration.Several? && o.expiration.values == [] ==> e == Failed(EmptyListError)
  {
    match o
    case LookupFailed(detail) => Failed(detail)
    case Found(Single(v)) => ValueExpiry(v)
    case Found(Several(vs)) => if vs == [] then Failed(EmptyListError) else ValueExpiry(vs[0])
  }

  /** The registration check of `domain` at instant `today`. */
  function CheckWhois(domain: string, o: WhoisOutcome, today: int): (r: Option<Alert>)
    ensures r.Some? ==> r.value.domain == domain && r.value.IsWhois()
    ensures r.Some? && r.value.WhoisDue? ==> ShouldNotify(r.value.daysLeft, WhoisSchedule)
    ensures WhoisExpiry(o).Unresolved? ==> r.None?
    ensures WhoisExpiry(o).Failed? ==> r == Some(WhoisError(domain, WhoisExpiry(o).detail))
  {
    match WhoisExpiry(o)
    case Resolved(instant, date) =>
      var days := DaysLeft(instant, today);
      if ShouldNotify(days, WhoisSchedule) then Some(WhoisDue(domain, days, date)) else None
    case Unresolved => None
    case Failed(detail) => Some(WhoisError(domain, detail))
  }

  /** A list of dates is read as its first date. */
  lemma WhoisListUsesFirst(domain: string, first: WhoisValue, rest: seq<WhoisValue>, today: int)
    ensures CheckWhois(domain, Found(Several([first] + rest)), today)
         == CheckWhois(domain, Found(Single(first)), today)
  {
  }

  /** An empty list of dates is a lookup error, not a missing date. */
  lemma WhoisEmptyListIsError(domain: string, today: int)
    ensures CheckWhois(domain, Found(Several([])), today) == Some(WhoisError(domain, EmptyListError))
  {
  }

  /** A missing expiration date yields no alert. */
  lemma WhoisMissingIsSilent(domain: string, today: int)
    ensures CheckWhois(domain, Found(Single(NoValue)), today).None?
    ensures CheckWhois(domain, Found(Single(TextValue(""))), today).None?
  {
  }

  /** Any failed lookup becomes an error alert naming the domain, whatever
      the exception said. */
  lemma WhoisLookupErrorAlerts(domain: string, detail: string, today: int)
    ensures CheckWhois(domain, LookupFailed(detail), today) == Some(WhoisError(domain, detail))
  {
  }

  /** A resolved date alerts exactly when the schedule says so, with the
      whole days left until the expiry instant (rounded down) and the date
      on the registry's own clock. */
  lemma WhoisDateAlert(domain: string, dt: WhoisDateTime, today: int)
    ensures var offset := if dt.utcOffset.Some? then dt.utcOffset.value else 0;
            var days := DaysLeft(InstantAt(dt.local, offset), today);
            CheckWhois(domain, Found(Single(DateTimeValue(dt))), today)
              == if ShouldNotify(days, WhoisSchedule) then Some(WhoisDue(domain, days, dt.local.date)) else None
  {
  }

  /** A naive datetime gives the same alert as the same reading marked as
      UTC. */
  lemma NaiveIsUtc(domain: string, local: DateTime, today: int)
    ensures CheckWhois(domain, Found(Single(DateTimeValue(WhoisDateTime(local, None)))), today)
         == CheckWhois(domain, Found(Single(DateTimeValue(WhoisDateTime(local, Some(0))))), today)
  {
  }

  // ---------------------------------------------------------------- TLS

  /** The certificate check of `domain` at instant `today`. */
  function CheckSsl(domain: string, o: SslOutcome, today: int): (r: Option<Alert>)
    ensures r.Some? ==> r.value.domain == domain && !r.value.IsWhois()
    ensures r.Some? && r.value.SslDue? ==> ShouldNotify(r.value.daysLeft, SslSchedule)
    ensures !o.PeerCert? ==> r.Some?
  {
    match o
    case ConnectTimeout => Some(SslTimeout(domain))
    case SslOrDnsError => Some(SslFailed(domain))
    case OtherError(detail) => Some(SslUnknown(domain, detail))
    case PeerCert(notAfter) =>
      var days := DaysLeft(InstantAt(notAfter, 0), today);
      if ShouldNotify(days, SslSchedule) then Some(SslDue(domain, days, notAfter.date)) else None
  }

  /** The three failures give three different kinds of alert. */
  lemma SslFailureKinds(domain: string, detail: string, today: int)
    ensures CheckSsl(domain, ConnectTimeout, today) == Some(SslTimeout(domain))
    ensures CheckSsl(domain, SslOrDnsError, today) == Some(SslFailed(domain))
    ensures CheckSsl(domain, OtherError(detail), today) == Some(SslUnknown(domain, detail))
  {
  }

  /** A certificate alerts exactly when the schedule says so, its `notAfter`
      read as UTC; a certificate not due yields nothing. */
  lemma SslCertAlert(domain: string, notAfter: DateTime, today: int)
    ensures var days := DaysLeft(InstantAt(notAfter, 0), today);
            CheckSsl(domain, PeerCert(notAfter), today)
              == if ShouldNotify(days, SslSchedule) then Some(SslDue(domain, days, notAfter.date)) else None
  {
  }

  // ---------------------------------------------------------------- one domain

  /** Both checks of one domain, registration first; each adds its alert
      when it has one. */
  function CheckDomain(domain: string, w: WhoisOutcome, s: SslOutcome, today: int): (alerts: seq<Alert>)
    ensures |alerts| == (if CheckWhois(domain, w, today).Some? then 1 else 0)
                       + (if CheckSsl(domain, s, today).Some? then 1 else 0)
    ensures CheckWhois(domain, w, today).Some? ==> alerts[0] == CheckWhois(domain, w, today).value
    ensures CheckSsl(domain, s, today).Some? ==> alerts[|alerts| - 1] == CheckSsl(domain, s, today).value
  {
    ToSeq(CheckWhois(domain, w, today)) + ToSeq(CheckSsl(domain, s, today))
  }

  /** A domain's alerts all name it, and a registration alert always comes
      before a certificate alert. */
  lemma CheckDomainOrder(domain: string, w: WhoisOutcome, s: SslOutcome, today: int)
    ensures var alerts := CheckDomain(domain, w, s, today);
            (forall i :: 0 <= i < |alerts| ==> alerts[i].domain == domain) &&
            (forall i, j :: 0 <= i < j < |alerts| ==> alerts[i].IsWhois() && !alerts[j].IsWhois())
  {
  }

  /** With both alerts present, the domain's alerts are exactly the two,
      the registration alert first. */
  lemma CheckDomainBoth(domain: string, w: WhoisOutcome, s: SslOutcome, today: int)
    requires CheckWhois(domain, w, today).Some? && CheckSsl(domain, s, today).Some?
    ensures CheckDomain(domain, w, s, today) == [CheckWhois(domain, w, today).value, CheckSsl(domain, s, today).value]
  {
  }

  /** A failed lookup beside a certificate that is not due gives exactly
      the lookup's error alert. */
  lemma LookupErrorBesideQuietCert(domain: string, detail: string, notAfter: DateTime, today: int)
    requires !ShouldNotify(DaysLeft(InstantAt(notAfter, 0), today), SslSchedule)
    ensures CheckDomain(domain, LookupFailed(detail), PeerCert(notAfter), today) == [WhoisError(domain, detail)]
  {
  }

  // ---------------------------------------------------------------- text

  /** The text of an alert is the kind's opening, the domain, then the
      kind's closing. */
  function Opening(a: Alert): string
  {
    match a
    case WhoisDue(_, _, _) => "🚨 **Domain Alert** 🚨\n`"
    case WhoisError(_, _) => "❌ Could not check WHOIS for `"
    case SslDue(_, _, _) => "🛡️ **SSL Alert** 🛡️\n`"
    case SslTimeout(_) => "❌ SSL check for `"
    case SslFailed(_) => "❌ SSL check for `"
    case SslUnknown(_, _) => "❌ Unknown SSL error for `"
  }

  function Closing(a: Alert): string
  {
    match a
    case WhoisDue(_, days, date) =>
      "` will expire in **" + IntToString(days) + "** days!\n(Expiration Date: " + IsoDate(date) + ")"
    case WhoisError(_, detail) => "`. Error: " + detail
    case SslDue(_, days, date) =>
      "` SSL certificate will expire in **" + IntToString(days) + "** days!\n(Expiration Date: " + IsoDate(date) + ")"
    case SslTimeout(_) => "` timed out. (Port 443 closed?)"
    case SslFailed(_) => "` failed. (No SSL certificate?)"
    case SslUnknown(_, detail) => "`: " + detail
  }

  /** The message text of an alert. It is never empty (so the run loop's
      truth test keeps every alert) and it names the domain. */
  function Render(a: Alert): (text: string)
    ensures |text| > 0
    ensures OccursAt(a.domain, text, |Opening(a)|)
  {
    var text := Opening(a) + a.domain + Closing(a);
    assert text[|Opening(a)|..|Opening(a)| + |a.domain|] == a.domain;
    text
  }
}
