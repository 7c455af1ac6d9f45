/**
 The ports of an http relation's provider, charmbits/httprelation/provider.go: what it records
 as open, and what the open-port and close-port tools have really opened. A tool call that
 fails has no effect.
 */
module PortLedger {
  import opened Wrappers
  import opened SimpleProvider

  /** The recorded ports, 0 for none, and the ports that are open. */
  datatype Ports = Ports(http: int, https: int, open: set<int>)

  datatype Which = HTTPPort | HTTPSPort

  function Recorded(p: Ports, which: Which): int {
    if which == HTTPPort then p.http else p.https
  }

  function Other(which: Which): Which {
    if which == HTTPPort then HTTPSPort else HTTPPort
  }

  function Record(p: Ports, which: Which, port: int): Ports {
    if which == HTTPPort then p.(http := port) else p.(https := port)
  }

  predicate ValidPort(port: int) {
    !(port <= 0 || port >= 65535)
  }

  /** What the configuration says (None if it cannot be read), and whether the two tools work. */
  datatype Config = Config(port: Option<int>, close: bool, open: bool)

  /** Provider.configurePort */
  function Configure(p: Ports, which: Which, c: Config): (Ports, bool) {
    if c.port.None? then (p, false)
    else if !ValidPort(c.port.value) || c.port.value == Recorded(p, which) then (p, true)
    else if Recorded(p, which) != 0 && !c.close then (p, false)
    else
      var p1 := if Recorded(p, which) == 0 then p
                else Record(p.(open := p.open - {Recorded(p, which)}), which, 0);
      if !c.open then (p1, false)
      else (Record(p1.(open := p1.open + {c.port.value}), which, c.port.value), true)
  }

  // ---- The ledger ----

  function Intended(p: Ports): set<int> {
    {p.http, p.https} - {0}
  }

  predicate Possible(port: int) {
    port == 0 || 1 <= port <= 65534
  }

  /** No port is open that is not recorded, and every recorded port can exist. */
  predicate Ledger(p: Ports) {
    p.open <= Intended(p) && Possible(p.http) && Possible(p.https)
  }

  /** The open ports are exactly the recorded ones. */
  predicate Exact(p: Ports) {
    p.open == Intended(p)
  }

  /** Whether configuring closes a port that the other record still needs. */
  predicate ClosesTheOther(p: Ports, which: Which, c: Config) {
    && c.port.Some? && ValidPort(c.port.value) && c.port.value != Recorded(p, which)
    && Recorded(p, which) != 0 && c.close
    && Recorded(p, which) == Recorded(p, Other(which))
  }

  lemma ConfigureKeepsLedger(p: Ports, which: Which, c: Config)
    requires Ledger(p)
    ensures Ledger(Configure(p, which, c).0)
    ensures Recorded(Configure(p, which, c).0, Other(which)) == Recorded(p, Other(which))
  {
  }

  /** The open ports stop being the recorded ones exactly when the port closed is also the other's. */
  lemma ConfigureKeepsExactly(p: Ports, which: Which, c: Config)
    requires Ledger(p) && Exact(p)
    ensures Exact(Configure(p, which, c).0) <==> !ClosesTheOther(p, which, c)
  {
    var r := Configure(p, which, c).0;
    if ClosesTheOther(p, which, c) {
      assert Recorded(p, which) !in r.open && Recorded(p, which) in Intended(r);
    }
  }

  /** After a success the record is the configured port, if that is valid, and it is open if it was opened. */
  lemma ConfigureRecords(p: Ports, which: Which, c: Config)
    requires Configure(p, which, c).1
    ensures var r := Configure(p, which, c).0;
            && c.port.Some?
            && Recorded(r, Other(which)) == Recorded(p, Other(which))
            && (if 1 <= c.port.value <= 65534 then
                  && Recorded(r, which) == c.port.value
                  && (c.port.value != Recorded(p, which) ==>
                        r.open == (if Recorded(p, which) == 0 then p.open else p.open - {Recorded(p, which)})
                                  + {c.port.value})
                  && (c.port.value == Recorded(p, which) ==> r == p)
                else r == p)
  {
  }

  /** Configuring fails exactly if the port cannot be read, or it is another one and a tool that is needed fails. */
  lemma ConfigureFailsExactly(p: Ports, which: Which, c: Config)
    ensures Configure(p, which, c).1
            <==> c.port.Some?
                 && (1 <= c.port.value <= 65534 && c.port.value != Recorded(p, which) ==>
                       (Recorded(p, which) != 0 ==> c.close) && c.open)
    ensures !Configure(p, which, c).1 ==>
              var r := Configure(p, which, c).0;
              r == p || (Recorded(r, which) == 0 && r.open == p.open - {Recorded(p, which)}
                         && Recorded(r, Other(which)) == Recorded(p, Other(which)))
  {
  }

  // ---- configChanged ----

  /** What one call of configChanged meets: the port configurations, the certificate and the address. */
  datatype Change = Change(http: Config, certReadable: bool, https: Config)

  /** The port part of Provider.configChanged. */
  function ChangePorts(p: Ports, allowHTTPS: bool, ch: Change): (Ports, bool) {
    var (p1, ok) := Configure(p, HTTPPort, ch.http);
    if !ok then (p1, false)
    else if allowHTTPS && ch.certReadable then Configure(p1, HTTPSPort, ch.https)
    else (p1, true)
  }

  /**
   A change that succeeds has configured the HTTP port, and the HTTPS port if HTTPS is allowed
   and the certificate can be read; else HTTPS is as it was.
   */
  lemma ChangeRecords(p: Ports, allowHTTPS: bool, ch: Change)
    requires ChangePorts(p, allowHTTPS, ch).1
    ensures var r := ChangePorts(p, allowHTTPS, ch).0;
            && ch.http.port.Some?
            && r.http == (if 1 <= ch.http.port.value <= 65534 then ch.http.port.value else p.http)
            && (if allowHTTPS && ch.certReadable then
                  && ch.https.port.Some?
                  && r.https == if 1 <= ch.https.port.value <= 65534 then ch.https.port.value else p.https
                else r.https == p.https)
  {
    ConfigureRecords(p, HTTPPort, ch.http);
    var p1 := Configure(p, HTTPPort, ch.http).0;
    if allowHTTPS && ch.certReadable {
      ConfigureRecords(p1, HTTPSPort, ch.https);
    }
  }

  function Run(allowHTTPS: bool, changes: seq<Change>): Ports {
    if changes == [] then Ports(0, 0, {})
    else ChangePorts(Run(allowHTTPS, changes[..|changes| - 1]), allowHTTPS, changes[|changes| - 1]).0
  }

  /** Over every run, whatever fails: only recorded ports are open. */
  lemma {:induction false} RunKeepsLedger(allowHTTPS: bool, changes: seq<Change>)
    ensures Ledger(Run(allowHTTPS, changes))
  {
    if changes != [] {
      var p := Run(allowHTTPS, changes[..|changes| - 1]);
      var ch := changes[|changes| - 1];
      RunKeepsLedger(allowHTTPS, changes[..|changes| - 1]);
      ConfigureKeepsLedger(p, HTTPPort, ch.http);
      ConfigureKeepsLedger(Configure(p, HTTPPort, ch.http).0, HTTPSPort, ch.https);
    }
  }

  /** Whether configuring opens a port that the other record already has. */
  predicate OpensTheOthers(p: Ports, which: Which, c: Config) {
    && c.port.Some? && ValidPort(c.port.value) && c.port.value != Recorded(p, which)
    && c.port.value == Recorded(p, Other(which))
  }

  /** The two configurations of a change keep clear of each other, each at the moment it is made. */
  predicate Clear(p: Ports, allowHTTPS: bool, ch: Change) {
    && !OpensTheOthers(p, HTTPPort, ch.http)
    && (var (p1, ok) := Configure(p, HTTPPort, ch.http);
        ok && allowHTTPS && ch.certReadable ==> !OpensTheOthers(p1, HTTPSPort, ch.https))
  }

  predicate Separate(p: Ports) {
    p.http != p.https || p.http == 0
  }

  lemma ConfigureKeepsSeparate(p: Ports, which: Which, c: Config)
    requires Ledger(p) && Exact(p) && Separate(p) && !OpensTheOthers(p, which, c)
    ensures Exact(Configure(p, which, c).0) && Separate(Configure(p, which, c).0)
  {
    ConfigureKeepsExactly(p, which, c);
  }

  /** Over every run in which no port is opened that the other record has, the open ports are the recorded ones. */
  lemma {:induction false} ClearRunIsExact(allowHTTPS: bool, changes: seq<Change>)
    requires forall k :: 0 <= k < |changes| ==> Clear(Run(allowHTTPS, changes[..k]), allowHTTPS, changes[k])
    ensures Exact(Run(allowHTTPS, changes)) && Separate(Run(allowHTTPS, changes))
  {
    if changes != [] {
      var front := changes[..|changes| - 1];
      forall k | 0 <= k < |front| ensures Clear(Run(allowHTTPS, front[..k]), allowHTTPS, front[k]) {
        assert front[..k] == changes[..k];
      }
      ClearRunIsExact(allowHTTPS, front);
      RunKeepsLedger(allowHTTPS, front);
      var p, ch := Run(allowHTTPS, front), changes[|changes| - 1];
      assert Clear(p, allowHTTPS, ch);
      ConfigureKeepsSeparate(p, HTTPPort, ch.http);
      var (p1, ok) := Configure(p, HTTPPort, ch.http);
      ConfigureKeepsLedger(p, HTTPPort, ch.http);
      if ok && allowHTTPS && ch.certReadable { ConfigureKeepsSeparate(p1, HTTPSPort, ch.https); }
    }
  }

  /** Moving HTTP from 80 to the 443 that HTTPS is about to leave for 8443 closes 443 for both. */
  lemma SwappingPortsClosesOne()
    ensures var first := Change(Config(Some(80), true, true), true, Config(Some(443), true, true));
            var second := Change(Config(Some(443), true, true), true, Config(Some(8443), true, true));
            Run(true, [first, second]) == Ports(443, 8443, {8443})
  {
    var first := Change(Config(Some(80), true, true), true, Config(Some(443), true, true));
    var second := Change(Config(Some(443), true, true), true, Config(Some(8443), true, true));
    assert [first][..0] == [] && [first, second][..1] == [first];
    assert Run(true, []) == Ports(0, 0, {});
    assert Run(true, [first]) == Ports(80, 443, {80, 443});
    assert Configure(Ports(80, 443, {80, 443}), HTTPPort, second.http).0 == Ports(443, 443, {443});
  }

  // ---- Hooks that save or do not ----

  /** A hook with its change; if its state is not saved, the next one finds the records of the last that was. */
  datatype Hook = Hook(change: Change, saved: bool)

  function AfterHook(p: Ports, allowHTTPS: bool, h: Hook): Ports {
    var r := ChangePorts(p, allowHTTPS, h.change).0;
    if h.saved then r else r.(http := p.http, https := p.https)
  }

  function RunHooks(allowHTTPS: bool, hooks: seq<Hook>): Ports {
    if hooks == [] then Ports(0, 0, {})
    else AfterHook(RunHooks(allowHTTPS, hooks[..|hooks| - 1]), allowHTTPS, hooks[|hooks| - 1])
  }

  function Changes(hooks: seq<Hook>): seq<Change> {
    if hooks == [] then [] else Changes(hooks[..|hooks| - 1]) + [hooks[|hooks| - 1].change]
  }

  /** If every hook saves, the ports are as if they were never put away. */
  lemma {:induction false} SavedRunIsRun(allowHTTPS: bool, hooks: seq<Hook>)
    requires forall k :: 0 <= k < |hooks| ==> hooks[k].saved
    ensures RunHooks(allowHTTPS, hooks) == Run(allowHTTPS, Changes(hooks))
  {
    if hooks != [] {
      SavedRunIsRun(allowHTTPS, hooks[..|hooks| - 1]);
      assert Changes(hooks)[..|Changes(hooks)| - 1] == Changes(hooks[..|hooks| - 1]);
    }
  }

  /** Whether configuring opens a port that is not the recorded one. */
  predicate OpensNew(p: Ports, which: Which, c: Config) {
    && c.port.Some? && ValidPort(c.port.value) && c.port.value != Recorded(p, which)
    && (Recorded(p, which) != 0 ==> c.close) && c.open
  }

  /**
   A hook that does not save leaves a port open that is not recorded exactly if it opened one,
   for HTTP or for HTTPS, that neither record had before.
   */
  lemma UnsavedKeepsLedgerExactly(p: Ports, allowHTTPS: bool, ch: Change)
    requires Ledger(p)
    ensures var (p1, ok) := Configure(p, HTTPPort, ch.http);
            var second := ok && allowHTTPS && ch.certReadable;
            Ledger(AfterHook(p, allowHTTPS, Hook(ch, false))) <==>
              && (OpensNew(p, HTTPPort, ch.http) ==> ch.http.port.value in Intended(p))
              && (second && OpensNew(p1, HTTPSPort, ch.https) ==> ch.https.port.value in Intended(p))
  {
    var (p1, ok) := Configure(p, HTTPPort, ch.http);
    ConfigureKeepsLedger(p, HTTPPort, ch.http);
    var r := AfterHook(p, allowHTTPS, Hook(ch, false));
    assert Intended(r) == Intended(p);
  }

  /** Port 80 is opened by a hook that cannot save, and is never closed when the port is moved. */
  lemma UnsavedPortStaysOpen()
    ensures var first := Hook(Change(Config(Some(80), true, true), false, Config(None, true, true)), false);
            var second := Hook(Change(Config(Some(8080), true, true), false, Config(None, true, true)), true);
            RunHooks(false, [first, second]) == Ports(8080, 0, {80, 8080})
  {
    var first := Hook(Change(Config(Some(80), true, true), false, Config(None, true, true)), false);
    var second := Hook(Change(Config(Some(8080), true, true), false, Config(None, true, true)), true);
    assert [first][..0] == [] && [first, second][..1] == [first];
    assert RunHooks(false, []) == Ports(0, 0, {});
    assert RunHooks(false, [first]) == Ports(0, 0, {80});
  }

  // ---- The objects ----

  function Digits(n: nat): string {
    if n < 10 then ["0123456789"[n]] else Digits(n / 10) + ["0123456789"[n % 10]]
  }

  /** strconv.Itoa */
  function Itoa(n: int): string {
    if n < 0 then "-" + Digits(-n) else Digits(n)
  }

  /** What the requirers are told. */
  function Published(http: int, addr: string): Attrs {
    if http == 0 then map["hostname" := "", "port" := ""]
    else map["hostname" := addr, "port" := Itoa(http)]
  }

  /** The number that a string of digits stands for. */
  function ReadDigits(s: string): int {
    if s == "" then 0
    else ReadDigits(s[..|s| - 1]) * 10 + (s[|s| - 1] as int - '0' as int)
  }

  function ReadInt(s: string): int {
    if s != "" && s[0] == '-' then -ReadDigits(s[1..]) else ReadDigits(s)
  }

  lemma {:induction false} DigitsReadBack(n: nat)
    ensures ReadDigits(Digits(n)) == n && Digits(n) != "" && forall c :: c in Digits(n) ==> '0' <= c <= '9'
  {
    if n >= 10 {
      DigitsReadBack(n / 10);
    }
    var d := Digits(n);
    assert d[|d| - 1] as int - '0' as int == n % 10;
    assert d[..|d| - 1] == if n < 10 then "" else Digits(n / 10);
  }

  lemma ItoaReadsBack(n: int)
    ensures Itoa(n) != "" && ReadInt(Itoa(n)) == n
  {
    hide Digits, ReadDigits;
    if n < 0 {
      DigitsReadBack(-n);
      assert Itoa(n)[1..] == Digits(-n);
    } else {
      DigitsReadBack(n);
      assert Digits(n)[0] in Digits(n);
    }
  }

  /** Requirers read back the recorded port with the address, or, if there is none, nothing at all. */
  lemma PublishedReadsBack(http: int, addr: string)
    ensures var vals := Published(http, addr);
            && vals.Keys == {"hostname", "port"}
            && (if http == 0 then vals["hostname"] == "" && vals["port"] == ""
                else vals["hostname"] == addr && vals["port"] != "" && ReadInt(vals["port"]) == http)
  {
    hide Itoa, ReadInt;
    ItoaReadsBack(http);
  }

  class HTTPProvider {
    const allowHTTPS: bool
    const prov: Provider
    var openedHTTPPort: int
    var openedHTTPSPort: int

    /** The ports that the tools have opened. */
    var open: set<int>

    constructor (allowHTTPS: bool, prov: Provider, p: Ports)
      ensures this.allowHTTPS == allowHTTPS && this.prov == prov && Snapshot() == p
    {
      this.allowHTTPS := allowHTTPS;
      this.prov := prov;
      openedHTTPPort := p.http;
      openedHTTPSPort := p.https;
      open := p.open;
    }

    function Snapshot(): Ports
      reads this
    {
      Ports(openedHTTPPort, openedHTTPSPort, open)
    }

    function OpenedPort(which: Which): int
      reads this
    {
      if which == HTTPPort then openedHTTPPort else openedHTTPSPort
    }

    /** Assigns through the pointer that configurePort is given. */
    method SetOpenedPort(which: Which, port: int)
      modifies this`openedHTTPPort, this`openedHTTPSPort
      ensures Snapshot() == Record(old(Snapshot()), which, port)
    {
      if which == HTTPPort {
        openedHTTPPort := port;
      } else {
        openedHTTPSPort := port;
      }
    }

    method ConfigurePort(which: Which, c: Config) returns (ok: bool)
      modifies this
      ensures (Snapshot(), ok) == Configure(old(Snapshot()), which, c)
    {
      if c.port.None? {
        return false;
      }
      var port := c.port.value;
      if port <= 0 || port >= 65535 {
        return true;
      }
      if port == OpenedPort(which) {
        return true;
      }
      if OpenedPort(which) != 0 {
        if !c.close {
          return false;
        }
        open := open - {OpenedPort(which)};
        SetOpenedPort(which, 0);
      }
      if !c.open {
        return false;
      }
      open := open + {port};
      SetOpenedPort(which, port);
      return true;
    }

    /** `addr` is the private address, or None if it cannot be read; `ids` and `reach` are as in Provider.SetValues. */
    method ConfigChanged(ch: Change, addr: Option<string>, ids: seq<string>, reach: nat)
      returns (ok: bool, ghost keyvals: seq<string>)
      modifies this, prov
      ensures Snapshot() == ChangePorts(old(Snapshot()), allowHTTPS, ch).0
      ensures Ledger(old(Snapshot())) ==> Ledger(Snapshot())
      ensures ok <==> ChangePorts(old(Snapshot()), allowHTTPS, ch).1
                      && (openedHTTPPort == 0 || addr.Some?) && reach >= |ids|
      ensures ok ==>
                && Lists(keyvals, Published(openedHTTPPort, if addr.Some? then addr.value else ""))
                && prov.Snapshot() == SetFirst(old(prov.Snapshot()), ids, keyvals, |ids|).(values := keyvals)
    {
      keyvals := [];
      if Ledger(Snapshot()) {
        ConfigureKeepsLedger(Snapshot(), HTTPPort, ch.http);
      }
      ok := ConfigurePort(HTTPPort, ch.http);
      if !ok {
        return;
      }
      if allowHTTPS && ch.certReadable {
        if Ledger(Snapshot()) {
          ConfigureKeepsLedger(Snapshot(), HTTPSPort, ch.https);
        }
        ok := ConfigurePort(HTTPSPort, ch.https);
        if !ok {
          return;
        }
      }
      if openedHTTPPort == 0 {
        var none: Attrs := map["hostname" := "", "port" := ""];
        assert "port" in none;
        ok, keyvals := prov.SetValues(none, ids, reach);
        return;
      }
      if addr.None? {
        return false, [];
      }
      var vals: Attrs := map["hostname" := addr.value, "port" := Itoa(openedHTTPPort)];
      assert "port" in vals;
      ok, keyvals := prov.SetValues(vals, ids, reach);
    }
  }
}
