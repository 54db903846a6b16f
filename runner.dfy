/** The run over the domain list: both checks for every domain, in list
    order, then one combined message to every configured service.

    The current time is an input (`today`, an instant), and so are the
    lookups: `whoisOf(i)` and `sslOf(i)` are what the WHOIS client and the
    TLS probe give for the domain at place `i` of the list during this run. */
module Runner {
  import opened Wrappers
  import opened Text
  import opened Checks
  import opened Notify

  /** The alerts of the first `n` places of the list, in order, where
      `alertsOf(i)` are the alerts of the domain at place `i`. */
  function Flatten(n: nat, alertsOf: nat -> seq<Alert>): seq<Alert>
  {
    if n == 0 then [] else Flatten(n - 1, alertsOf) + alertsOf(n - 1)
  }

  /** `f` seen from place `m` on. */
  function Shift<T>(f: nat -> T, m: nat): nat -> T
  {
    (i: nat) => f(i + m)
  }

  /** The alerts of the domain at place `i` of `domains`, with the `i`-th
      lookups of the run. */
  function DomainAlerts(domains: seq<string>, whoisOf: nat -> WhoisOutcome, sslOf: nat -> SslOutcome,
                        today: int): nat -> seq<Alert>
  {
    (i: nat) => if i < |domains| then CheckDomain(domains[i], whoisOf(i), sslOf(i), today) else []
  }

  /** The alerts of a run over `domains`: per domain, in list order, the
      registration alert then the certificate alert, each when present. */
  function AllAlerts(domains: seq<string>, whoisOf: nat -> WhoisOutcome, sslOf: nat -> SslOutcome, today: int): seq<Alert>
  {
    Flatten(|domains|, DomainAlerts(domains, whoisOf, sslOf, today))
  }

  /** The text of each alert, in order, as `render` writes it. */
  function Texts(alerts: seq<Alert>, render: Alert -> string): (texts: seq<string>)
    ensures |texts| == |alerts|
  {
    if alerts == [] then [] else Texts(alerts[..|alerts| - 1], render) + [render(alerts[|alerts| - 1])]
  }

  /** Each text is the rendering of the alert at the same place. */
  lemma {:induction false} TextsAt(alerts: seq<Alert>, render: Alert -> string, i: int)
    requires 0 <= i < |alerts|
    ensures Texts(alerts, render)[i] == render(alerts[i])
  {
    if i < |alerts| - 1 {
      TextsAt(alerts[..|alerts| - 1], render, i);
    }
  }

  /** The combined message: the alert texts separated by a blank line. */
  function AlertMessage(alerts: seq<Alert>): string
  {
    Join(Texts(alerts, Render), "\n\n")
  }

  /** `check_all_domains`. Nothing is sent when there is no domain or no
      alert; otherwise the combined message goes out once. */
  method CheckAllDomains(domains: seq<string>, whoisOf: nat -> WhoisOutcome, sslOf: nat -> SslOutcome,
                         today: int, config: SinkConfig)
    returns (alerts: seq<Alert>, sent: seq<Delivery>)
    ensures alerts == AllAlerts(domains, whoisOf, sslOf, today)
    ensures sent == if alerts == [] then [] else Deliveries(config, AlertMessage(alerts))
  {
    alerts, sent := [], [];
    if domains == [] {
      return;
    }
    var i := 0;
    while i < |domains|
      invariant 0 <= i <= |domains|
      invariant alerts == Flatten(i, DomainAlerts(domains, whoisOf, sslOf, today))
    {
      var d := domains[i];
      ghost var before := alerts;
      // An alert text is never empty, so the source's truth test on it is
      // the same as asking whether the check produced one.
      var whoisAlert := CheckWhois(d, whoisOf(i), today);
      if whoisAlert.Some? {
        alerts := alerts + [whoisAlert.value];
      }
      ghost var middle := alerts;
      var sslAlert := CheckSsl(d, sslOf(i), today);
      if sslAlert.Some? {
        alerts := alerts + [sslAlert.value];
      }
      NextDomainAlerts(domains, i, whoisOf, sslOf, today, before, middle, alerts);
      i := i + 1;
    }
    sent := NotifyIfAlerts(alerts, config);
  }

  /** One turn of the run's loop: appending the registration alert and
      then the certificate alert of the next domain, each when present,
      extends the alerts of the domains before it to those of one more. */
  lemma NextDomainAlerts(domains: seq<string>, i: nat, whoisOf: nat -> WhoisOutcome,
                         sslOf: nat -> SslOutcome, today: int,
                         before: seq<Alert>, middle: seq<Alert>, after: seq<Alert>)
    requires i < |domains|
    requires before == Flatten(i, DomainAlerts(domains, whoisOf, sslOf, today))
    requires var w := CheckWhois(domains[i], whoisOf(i), today);
             middle == if w.Some? then before + [w.value] else before
    requires var s := CheckSsl(domains[i], sslOf(i), today);
             after == if s.Some? then middle + [s.value] else middle
    ensures after == Flatten(i + 1, DomainAlerts(domains, whoisOf, sslOf, today))
  {
    AppendBoth(before, middle, after, CheckWhois(domains[i], whoisOf(i), today), CheckSsl(domains[i], sslOf(i), today));
  }

  /** Appending the registration alert and then the certificate alert, each
      when present, appends the domain's alerts. */
  lemma AppendBoth(before: seq<Alert>, middle: seq<Alert>, after: seq<Alert>, w: Option<Alert>, s: Option<Alert>)
    requires middle == if w.Some? then before + [w.value] else before
    requires after == if s.Some? then middle + [s.value] else middle
    ensures after == before + (ToSeq(w) + ToSeq(s))
  {
  }

  /** The end of a run: with alerts, the combined message is sent once;
      without, nothing is sent. */
  method NotifyIfAlerts(alerts: seq<Alert>, config: SinkConfig) returns (sent: seq<Delivery>)
    ensures sent == if alerts == [] then [] else Deliveries(config, AlertMessage(alerts))
  {
    sent := [];
    if alerts != [] {
      var finalMessage := AlertMessage(alerts);
      var anyConfigured;
      sent, anyConfigured := SendNotification(config, finalMessage);
    }
  }

  /** The first `m + n` places are the first `m`, then `n` more from
      place `m` on. */
  lemma {:induction false} FlattenSplit(m: nat, n: nat, alertsOf: nat -> seq<Alert>)
    ensures Flatten(m + n, alertsOf) == Flatten(m, alertsOf) + Flatten(n, Shift(alertsOf, m))
  {
    if n > 0 {
      FlattenSplit(m, n - 1, alertsOf);
    }
  }

  /** Only the first `n` places matter. */
  lemma {:induction false} FlattenAgree(n: nat, f: nat -> seq<Alert>, g: nat -> seq<Alert>)
    requires forall i: nat :: i < n ==> f(i) == g(i)
    ensures Flatten(n, f) == Flatten(n, g)
  {
    if n > 0 {
      FlattenAgree(n - 1, f, g);
    }
  }

  /** At most two alerts per place give at most two per place in all. */
  lemma {:induction false} FlattenBound(n: nat, alertsOf: nat -> seq<Alert>)
    requires forall i: nat :: i < n ==> |alertsOf(i)| <= 2
    ensures |Flatten(n, alertsOf)| <= 2 * n
  {
    if n > 0 {
      FlattenBound(n - 1, alertsOf);
    }
  }

  /** Every alert of the first `n` places comes from one of them. */
  lemma {:induction false} FlattenFrom(n: nat, alertsOf: nat -> seq<Alert>, a: Alert)
    requires a in Flatten(n, alertsOf)
    ensures exists i: nat :: i < n && a in alertsOf(i)
  {
    if a !in alertsOf(n - 1) {
      FlattenFrom(n - 1, alertsOf, a);
    }
  }

  /** A run over two lists is the run over the first followed by the run
      over the second, whose lookups are those after the first list's:
      alerts are ordered by domain. */
  lemma AllAlertsConcat(a: seq<string>, b: seq<string>, whoisOf: nat -> WhoisOutcome,
                        sslOf: nat -> SslOutcome, today: int)
    ensures AllAlerts(a + b, whoisOf, sslOf, today)
         == AllAlerts(a, whoisOf, sslOf, today) + AllAlerts(b, Shift(whoisOf, |a|), Shift(sslOf, |a|), today)
  {
    var all := DomainAlerts(a + b, whoisOf, sslOf, today);
    FlattenSplit(|a|, |b|, all);
    FrontAgrees(a, b, whoisOf, sslOf, today);
    FlattenAgree(|a|, all, DomainAlerts(a, whoisOf, sslOf, today));
    BackAgrees(a, b, whoisOf, sslOf, today);
    FlattenAgree(|b|, Shift(all, |a|), DomainAlerts(b, Shift(whoisOf, |a|), Shift(sslOf, |a|), today));
  }

  /** In a run over `a + b`, the places of `a` are checked as in a run over `a`. */
  lemma FrontAgrees(a: seq<string>, b: seq<string>, whoisOf: nat -> WhoisOutcome,
                    sslOf: nat -> SslOutcome, today: int)
    ensures forall i: nat :: i < |a| ==>
              DomainAlerts(a + b, whoisOf, sslOf, today)(i) == DomainAlerts(a, whoisOf, sslOf, today)(i)
  {
    forall i: nat | i < |a|
      ensures DomainAlerts(a + b, whoisOf, sslOf, today)(i) == DomainAlerts(a, whoisOf, sslOf, today)(i)
    {
      assert (a + b)[i] == a[i];
    }
  }

  /** In a run over `a + b`, the places of `b` are checked as in a run over
      `b` whose lookups start after those of `a`. */
  lemma BackAgrees(a: seq<string>, b: seq<string>, whoisOf: nat -> WhoisOutcome,
                   sslOf: nat -> SslOutcome, today: int)
    ensures forall i: nat :: i < |b| ==>
              Shift(DomainAlerts(a + b, whoisOf, sslOf, today), |a|)(i)
                == DomainAlerts(b, Shift(whoisOf, |a|), Shift(sslOf, |a|), today)(i)
  {
    forall i: nat | i < |b|
      ensures Shift(DomainAlerts(a + b, whoisOf, sslOf, today), |a|)(i)
                == DomainAlerts(b, Shift(whoisOf, |a|), Shift(sslOf, |a|), today)(i)
    {
      assert (a + b)[i + |a|] == b[i];
    }
  }

  /** A run has at most two alerts per domain. */
  lemma AllAlertsBound(domains: seq<string>, whoisOf: nat -> WhoisOutcome, sslOf: nat -> SslOutcome, today: int)
    ensures |AllAlerts(domains, whoisOf, sslOf, today)| <= 2 * |domains|
  {
    var all := DomainAlerts(domains, whoisOf, sslOf, today);
    forall i: nat | i < |domains| ensures |all(i)| <= 2 {
      assert all(i) == CheckDomain(domains[i], whoisOf(i), sslOf(i), today);
    }
    FlattenBound(|domains|, all);
  }

  /** The run over a single domain is that domain's check with the first
      lookups. */
  lemma OneDomain(d: string, whoisOf: nat -> WhoisOutcome, sslOf: nat -> SslOutcome, today: int)
    ensures AllAlerts([d], whoisOf, sslOf, today) == CheckDomain(d, whoisOf(0), sslOf(0), today)
  {
    assert Flatten(1, DomainAlerts([d], whoisOf, sslOf, today)) == [] + DomainAlerts([d], whoisOf, sslOf, today)(0);
  }

  /** The first domain's alerts come first, before those of the rest. */
  lemma AllAlertsCons(d: string, rest: seq<string>, whoisOf: nat -> WhoisOutcome,
                      sslOf: nat -> SslOutcome, today: int)
    ensures AllAlerts([d] + rest, whoisOf, sslOf, today)
         == CheckDomain(d, whoisOf(0), sslOf(0), today) + AllAlerts(rest, Shift(whoisOf, 1), Shift(sslOf, 1), today)
  {
    AllAlertsConcat([d], rest, whoisOf, sslOf, today);
    OneDomain(d, whoisOf, sslOf, today);
  }

  /** A domain listed twice is looked up twice: each place gets the
      outcome of its own lookups, which may differ. */
  lemma ListedTwice(d: string, whoisOf: nat -> WhoisOutcome, sslOf: nat -> SslOutcome, today: int)
    ensures AllAlerts([d, d], whoisOf, sslOf, today)
         == CheckDomain(d, whoisOf(0), sslOf(0), today) + CheckDomain(d, whoisOf(1), sslOf(1), today)
  {
    AllAlertsCons(d, [d], whoisOf, sslOf, today);
    OneDomain(d, Shift(whoisOf, 1), Shift(sslOf, 1), today);
  }

  /** Every alert names a domain of the list. */
  lemma AlertsNameListedDomains(domains: seq<string>, whoisOf: nat -> WhoisOutcome,
                                sslOf: nat -> SslOutcome, today: int)
    ensures forall a :: a in AllAlerts(domains, whoisOf, sslOf, today) ==> a.domain in domains
  {
    var all := DomainAlerts(domains, whoisOf, sslOf, today);
    forall a | a in AllAlerts(domains, whoisOf, sslOf, today) ensures a.domain in domains {
      FlattenFrom(|domains|, all, a);
      var i: nat :| i < |domains| && a in all(i);
      CheckDomainOrder(domains[i], whoisOf(i), sslOf(i), today);
    }
  }

  /** The combined message is empty exactly when there are no alerts, so a
      non-empty alert list always sends something to a configured service. */
  lemma AlertMessageEmpty(alerts: seq<Alert>)
    ensures AlertMessage(alerts) == [] <==> alerts == []
  {
    JoinEmpty(Texts(alerts, Render), "\n\n");
    if alerts != [] {
      TextsAt(alerts, Render, 0);
    }
  }

  /** One more alert adds a blank line and its text at the end. */
  lemma AlertMessageAppend(alerts: seq<Alert>, a: Alert)
    requires alerts != []
    ensures AlertMessage(alerts + [a]) == AlertMessage(alerts) + "\n\n" + Render(a)
  {
    assert (alerts + [a])[..|alerts|] == alerts;
    assert Texts(alerts + [a], Render) == Texts(alerts, Render) + [Render(a)];
    JoinConcat(Texts(alerts, Render), [Render(a)], "\n\n");
  }

  /** A single alert's message is its text alone. */
  lemma AlertMessageOne(a: Alert)
    ensures AlertMessage([a]) == Render(a)
  {
    assert [a][..0] == [];
    assert Texts([a], Render) == [Render(a)];
  }

  /** A run with no domains sends nothing. */
  lemma NoDomainsNoDispatch(whoisOf: nat -> WhoisOutcome, sslOf: nat -> SslOutcome, today: int)
    ensures AllAlerts([], whoisOf, sslOf, today) == []
  {
  }

  /** One domain with both expiries due: the registration alert and the
      certificate alert, in that order, joined by a blank line into the one
      message each configured service receives once. */
  lemma BothDueOneMessage(d: string, w: WhoisOutcome, s: SslOutcome, today: int,
                          whoisOf: nat -> WhoisOutcome, sslOf: nat -> SslOutcome)
    requires whoisOf(0) == w && sslOf(0) == s
    requires CheckWhois(d, w, today).Some? && CheckWhois(d, w, today).value.WhoisDue?
    requires CheckSsl(d, s, today).Some? && CheckSsl(d, s, today).value.SslDue?
    ensures var alerts := AllAlerts([d], whoisOf, sslOf, today);
            alerts == [CheckWhois(d, w, today).value, CheckSsl(d, s, today).value] &&
            AlertMessage(alerts) == Render(alerts[0]) + "\n\n" + Render(alerts[1])
  {
    var x, y := CheckWhois(d, w, today).value, CheckSsl(d, s, today).value;
    OneDomain(d, whoisOf, sslOf, today);
    CheckDomainBoth(d, w, s, today);
    AlertMessageAppend([x], y);
    AlertMessageOne(x);
  }
}
