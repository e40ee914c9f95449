/**
 * The application state machine: dispatching a DNS operation to a worker and
 * folding its result, the derived view of the adapter's DNS servers, the
 * latency monitor with its bounded history, the provider list's callbacks,
 * and the add and delete paths of the saved-entry list.
 *
 * The operating-system gateway (adapter lookup, reading, setting and
 * clearing DNS servers) is not part of this model: its answers arrive as
 * parameters. The worker thread and its channel become a pending slot that
 * a dispatch fills and a drain empties.
 */
module App {
  import opened Base
  import opened Text
  import opened Domain
  import Ui
  import Storage

  // ---------------------------------------------------------------------------
  // The worker's computation
  // ---------------------------------------------------------------------------

  /** What the operating system answers, for the adapter the worker is given. */
  datatype Gateway = Gateway(
    setDns: (string, string, string) -> OperationResult,
    clearDns: string -> OperationResult,
    currentDns: string -> seq<string>)

  const NoConnectionMessage: string := "No Internet Connection Found"
  const NoServersMessage: string := "No DNS servers configured"
  const TestSuccessPrefix: string := "DNS test successful: "

  /** The outcome of a DNS test on the servers the adapter reports. */
  function TestResult(dns: seq<string>): (r: OperationResult)
    ensures !r.Error?
    ensures r.Warning? <==> dns == []
    ensures r.Warning? ==> r.message == NoServersMessage
    ensures r.Success? ==> |r.message| >= |TestSuccessPrefix| && r.message[..|TestSuccessPrefix|] == TestSuccessPrefix
  {
    if dns == [] then OperationResult.Warning(NoServersMessage)
    else OperationResult.Success(TestSuccessPrefix + Join(dns, ", "))
  }

  /** A successful test names every server the adapter reports. */
  lemma TestReportsEveryServer(dns: seq<string>, i: nat)
    requires i < |dns|
    ensures TestResult(dns).Success? && Contains(TestResult(dns).message, dns[i])
  {
    JoinHasPart(dns, ", ", i);
    var k :| OccursAt(Join(dns, ", "), dns[i], k);
    OccursAfterPrefix(TestSuccessPrefix, Join(dns, ", "), dns[i], k);
    ContainsAt(TestResult(dns).message, dns[i]);
  }

  /** Two reported servers are listed in order, separated by a comma and a space. */
  lemma TestMessageOfTwoServers(a: string, b: string)
    ensures TestResult([a, b]) == OperationResult.Success("DNS test successful: " + a + ", " + b)
  {
    assert [a, b][1..] == [b];
    assert Join([a, b], ", ") == a + ", " + b;
    assert TestSuccessPrefix + (a + ", " + b) == "DNS test successful: " + a + ", " + b;
  }

  /** The single result the worker sends back for `op`, given the adapter it was handed. */
  function WorkerResult(op: DnsOperation, adapter: Option<string>, gw: Gateway): (r: OperationResult)
    ensures adapter.None? ==> r == OperationResult.Error(NoConnectionMessage)
    ensures adapter.Some? && op.Test? ==> r == TestResult(gw.currentDns(adapter.value))
    ensures adapter.Some? && op.Set? ==> r == gw.setDns(adapter.value, op.provider.primary, op.provider.secondary)
    ensures adapter.Some? && op.Clear? ==> r == gw.clearDns(adapter.value)
  {
    match op
    case Set(provider) =>
      if adapter.Some? then
        var (primary, secondary) := GetServers(provider);
        gw.setDns(adapter.value, primary, secondary)
      else OperationResult.Error(NoConnectionMessage)
    case Clear =>
      if adapter.Some? then gw.clearDns(adapter.value) else OperationResult.Error(NoConnectionMessage)
    case Test =>
      if adapter.Some? then TestResult(gw.currentDns(adapter.value)) else OperationResult.Error(NoConnectionMessage)
  }

  /** Without an adapter the gateway is never consulted: any two gateways give the same result. */
  lemma NoAdapterIgnoresGateway(op: DnsOperation, gw1: Gateway, gw2: Gateway)
    ensures WorkerResult(op, Option.None, gw1) == WorkerResult(op, Option.None, gw2)
    ensures WorkerResult(op, Option.None, gw1).Error?
  {
  }

  /** A test with an adapter never reports an error, whatever the gateway answers. */
  lemma TestNeverErrs(adapter: string, gw: Gateway)
    ensures !WorkerResult(Test, Some(adapter), gw).Error?
  {
  }

  /**
   * Setting DNS depends only on the provider's two addresses: a saved entry
   * and a custom pair with the same addresses are set identically, whatever
   * the entry's name.
   */
  lemma SetUsesOnlyAddresses(name: string, primary: string, secondary: string, adapter: Option<string>, gw: Gateway)
    ensures WorkerResult(Set(SavedDns(name, primary, secondary)), adapter, gw)
         == WorkerResult(Set(CustomDns(primary, secondary)), adapter, gw)
  {
  }

  // ---------------------------------------------------------------------------
  // Derived state
  // ---------------------------------------------------------------------------

  /** The state shown for the adapter's server list. */
  function DeriveDnsState(dns: seq<string>): (s: DnsState)
    ensures s == DnsState.None <==> dns == []
    ensures s == Dhcp <==> |dns| == 1 && Contains(dns[0], "dhcp")
    ensures s.Static? <==> dns != [] && !(|dns| == 1 && Contains(dns[0], "dhcp"))
    ensures s.Static? ==> s.servers == dns
  {
    if dns == [] then DnsState.None
    else if |dns| == 1 && Contains(dns[0], "dhcp") then Dhcp
    else Static(dns)
  }

  /** Two or more servers are always a static configuration, even if they mention DHCP. */
  lemma SeveralServersAreStatic(dns: seq<string>)
    requires |dns| >= 2
    ensures DeriveDnsState(dns) == Static(dns)
  {
  }

  /** The DHCP marker is matched case-sensitively: "DHCP" alone is a static server. */
  lemma DhcpMarkerIsCaseSensitive()
    ensures DeriveDnsState(["DHCP"]) == Static(["DHCP"])
    ensures DeriveDnsState(["dhcp"]) == Dhcp
  {
    assert "DHCP"[..4] != "dhcp" by {
      assert "DHCP"[..4][0] != "dhcp"[0];
    }
    assert !Contains("DHCP"[1..], "dhcp");
    assert "dhcp"[..4] == "dhcp";
  }

  /** The state a finished operation leaves the application in. */
  function FoldedState(r: OperationResult): (s: AppState)
    ensures !s.Idle? && !s.Processing?
    ensures s.message == r.message
    ensures s.Success? <==> r.Success?
    ensures s.Error? <==> r.Error?
  {
    match r
    case Success(m) => AppState.Success(m)
    case Error(m) => AppState.Error(m)
    case Warning(m) => AppState.Warning(m)
  }

  // ---------------------------------------------------------------------------
  // Latency history
  // ---------------------------------------------------------------------------

  /** How many latency samples the monitor keeps. */
  const PingCapacity: nat := 15

  /** The newest samples that fit: the last `PingCapacity` of `s`. */
  function Window(s: seq<real>): (w: seq<real>)
    ensures |w| <= PingCapacity
    ensures |w| == if |s| <= PingCapacity then |s| else PingCapacity
  {
    if |s| <= PingCapacity then s else s[|s| - PingCapacity..]
  }

  /** One received sample: drop the oldest when full, then append. */
  function PushSample(h: seq<real>, x: real): (r: seq<real>)
    ensures |r| >= 1 && r[|r| - 1] == x
    ensures |h| <= PingCapacity ==> |r| <= PingCapacity
  {
    if |h| >= PingCapacity then h[1..] + [x] else h + [x]
  }

  /** A bounded history that takes one more sample keeps the newest samples that fit. */
  lemma PushSampleKeepsWindow(h: seq<real>, x: real)
    requires |h| <= PingCapacity
    ensures PushSample(h, x) == Window(h + [x])
  {
    if |h| == PingCapacity {
      assert (h + [x])[1..] == h[1..] + [x];
    }
  }

  /** Samples received in order, one at a time. */
  function Feed(h: seq<real>, xs: seq<real>): (r: seq<real>)
    ensures |h| <= PingCapacity ==> |r| <= PingCapacity
    decreases |xs|
  {
    if xs == [] then h else Feed(PushSample(h, xs[0]), xs[1..])
  }

  /** Keeping the newest samples of a prefix and then of the whole is the same as keeping them once. */
  lemma WindowAbsorbs(s: seq<real>, t: seq<real>)
    ensures Window(Window(s) + t) == Window(s + t)
  {
    if |s| > PingCapacity {
      var cut := |s| - PingCapacity;
      assert Window(s) + t == (s + t)[cut..];
    }
  }

  /**
   * However many samples arrive, the history is exactly the newest
   * `PingCapacity` of everything received, in arrival order.
   */
  lemma {:induction false} FeedKeepsWindow(h: seq<real>, xs: seq<real>)
    requires |h| <= PingCapacity
    ensures Feed(h, xs) == Window(h + xs)
    decreases |xs|
  {
    if xs == [] {
      assert h + xs == h;
    } else {
      var x, rest := xs[0], xs[1..];
      var pushed := PushSample(h, x);
      PushSampleKeepsWindow(h, x);
      FeedKeepsWindow(pushed, rest);
      WindowAbsorbs(h + [x], rest);
      assert h + [x] + rest == h + xs;
    }
  }

  // ---------------------------------------------------------------------------
  // Adding a saved entry
  // ---------------------------------------------------------------------------

  /** Some saved entry's trimmed name equals `name` up to ASCII case. */
  predicate NameTaken(entries: seq<SavedDnsEntry>, name: string)
    ensures NameTaken(entries, name) ==> entries != []
  {
    exists k :: 0 <= k < |entries| && Clashes(entries[k], name)
  }

  /** An entry clashes with a name when its trimmed name equals it up to ASCII case. */
  predicate Clashes(e: SavedDnsEntry, name: string) {
    EqIgnoreAsciiCase(Trim(e.name), name)
  }

  /** A saved entry whose trimmed name is exactly `name` makes it taken. */
  lemma ExactNameTaken(entries: seq<SavedDnsEntry>, name: string, k: nat)
    requires k < |entries| && Trim(entries[k].name) == name
    ensures NameTaken(entries, name)
  {
    assert Clashes(entries[k], name);
  }

  /** The same test run entry by entry from the front, as `Iterator::any` does. */
  predicate ClashFound(entries: seq<SavedDnsEntry>, name: string)
    ensures entries != [] && Clashes(entries[0], name) ==> ClashFound(entries, name)
    ensures ClashFound(entries, name) ==> entries != []
  {
    entries != [] && (Clashes(entries[0], name) || ClashFound(entries[1..], name))
  }

  /** The front-to-back scan finds a clash exactly when some entry clashes. */
  lemma {:induction false} ClashFoundIsNameTaken(entries: seq<SavedDnsEntry>, name: string)
    ensures ClashFound(entries, name) <==> NameTaken(entries, name)
  {
    if entries != [] {
      ClashFoundIsNameTaken(entries[1..], name);
      NameTakenByFirstOrRest(entries, name);
    }
  }

  /** A name is taken in a non-empty list iff the first entry clashes or it is taken in the rest. */
  lemma NameTakenByFirstOrRest(entries: seq<SavedDnsEntry>, name: string)
    requires entries != []
    ensures NameTaken(entries, name) <==> Clashes(entries[0], name) || NameTaken(entries[1..], name)
  {
    if NameTaken(entries[1..], name) {
      TakenInRestIsTaken(entries, name);
    }
    if NameTaken(entries, name) && !Clashes(entries[0], name) {
      TakenAfterFirstIsTakenInRest(entries, name);
    }
  }

  /** A clash in the rest of the list is a clash in the list. */
  lemma TakenInRestIsTaken(entries: seq<SavedDnsEntry>, name: string)
    requires entries != [] && NameTaken(entries[1..], name)
    ensures NameTaken(entries, name)
  {
    var rest := entries[1..];
    var k :| 0 <= k < |rest| && Clashes(rest[k], name);
    assert entries[k + 1] == rest[k];
  }

  /** A clash that is not at the first entry lies in the rest of the list. */
  lemma TakenAfterFirstIsTakenInRest(entries: seq<SavedDnsEntry>, name: string)
    requires entries != [] && NameTaken(entries, name) && !Clashes(entries[0], name)
    ensures NameTaken(entries[1..], name)
  {
    var k :| 0 <= k < |entries| && Clashes(entries[k], name);
    var rest := entries[1..];
    assert rest[k - 1] == entries[k];
    assert 0 <= k - 1 < |rest| && Clashes(rest[k - 1], name);
  }

  /** How the add path judges the typed inputs. */
  datatype AddVerdict = Duplicate(name: string) | Invalid | Accepted(entry: SavedDnsEntry)

  const InvalidInputMessage: string := "Please enter a valid name and DNS IP addresses"
  const SavedMessage: string := "DNS saved successfully!"
  const DeletedMessage: string := "DNS entry deleted"

  function DuplicateMessage(name: string): string {
    "A DNS entry with the name '" + name + "' already exists"
  }

  /**
   * The duplicate check comes first, on the trimmed name; only then are the
   * name and both addresses checked. An accepted entry is stored trimmed.
   */
  function Judge(entries: seq<SavedDnsEntry>, name: string, primary: string, secondary: string): (v: AddVerdict)
    ensures v.Duplicate? ==> v.name == Trim(name)
    ensures v.Accepted? ==>
      && v.entry.name == Trim(name) && v.entry.name != []
      && Ui.ValidIp(primary) && Ui.ValidIp(secondary)
  {
    var trimmed := Trim(name);
    if ClashFound(entries, trimmed) then Duplicate(trimmed)
    else if trimmed != [] && (Trim(primary) != [] && Ui.ValidIp(primary)) && (Trim(secondary) != [] && Ui.ValidIp(secondary))
    then Accepted(SavedDnsEntry(trimmed, Trim(primary), Trim(secondary)))
    else Invalid
  }

  /**
   * A clashing name is always reported, as the trimmed name; otherwise the
   * inputs are accepted exactly when the trimmed name is non-empty and both
   * addresses are valid, and the accepted addresses are stored as typed.
   */
  lemma JudgeCases(entries: seq<SavedDnsEntry>, name: string, primary: string, secondary: string)
    ensures var v := Judge(entries, name, primary, secondary);
      && (v.Duplicate? <==> NameTaken(entries, Trim(name)))
      && (v.Duplicate? ==> v.name == Trim(name))
      && (v.Accepted? <==> !NameTaken(entries, Trim(name)) && Trim(name) != [] && Ui.ValidIp(primary) && Ui.ValidIp(secondary))
      && (v.Accepted? ==> v.entry == SavedDnsEntry(Trim(name), primary, secondary))
  {
    ClashFoundIsNameTaken(entries, Trim(name));
    Ui.AddPathAddressCheck(primary);
    Ui.AddPathAddressCheck(secondary);
  }

  /** No two entries have trimmed names equal up to ASCII case. */
  predicate DistinctNames(entries: seq<SavedDnsEntry>) {
    forall i, j :: 0 <= i < j < |entries| ==> !EqIgnoreAsciiCase(Trim(entries[i].name), Trim(entries[j].name))
  }

  /** An accepted entry keeps the list free of clashing names. */
  lemma AcceptedKeepsNamesDistinct(entries: seq<SavedDnsEntry>, name: string, primary: string, secondary: string)
    requires DistinctNames(entries)
    requires Judge(entries, name, primary, secondary).Accepted?
    ensures DistinctNames(entries + [Judge(entries, name, primary, secondary).entry])
  {
    JudgeCases(entries, name, primary, secondary);
    var e := Judge(entries, name, primary, secondary).entry;
    var all := entries + [e];
    TrimIdempotent(name);
    assert Trim(e.name) == Trim(name);
    forall i, j | 0 <= i < j < |all| ensures !EqIgnoreAsciiCase(Trim(all[i].name), Trim(all[j].name)) {
      if j == |entries| {
        assert all[i] == entries[i];
      } else {
        assert all[i] == entries[i] && all[j] == entries[j];
      }
    }
  }

  /** An accepted entry has a non-empty name, valid addresses, and nothing to trim. */
  lemma AcceptedEntryIsClean(entries: seq<SavedDnsEntry>, name: string, primary: string, secondary: string)
    requires Judge(entries, name, primary, secondary).Accepted?
    ensures var e := Judge(entries, name, primary, secondary).entry;
      && e.name != [] && Trim(e.name) == e.name
      && Ui.ValidIp(e.primary) && Ui.ValidIp(e.secondary)
      && Trim(e.primary) == e.primary && Trim(e.secondary) == e.secondary
  {
    JudgeCases(entries, name, primary, secondary);
    TrimIdempotent(name);
    Ui.AddPathAddressCheck(primary);
    Ui.AddPathAddressCheck(secondary);
  }

  /** The duplicate check wins over validity: a clashing name is reported even with bad addresses. */
  lemma DuplicateReportedFirst(entries: seq<SavedDnsEntry>, name: string, primary: string, secondary: string)
    requires NameTaken(entries, Trim(name))
    ensures Judge(entries, name, primary, secondary) == Duplicate(Trim(name))
  {
    ClashFoundIsNameTaken(entries, Trim(name));
  }

  /** "home" and "Home" differ only in ASCII case. */
  lemma HomeEqualsIgnoringCase(a: string, b: string)
    requires a == "home" && b == "Home"
    ensures EqIgnoreAsciiCase(a, b)
  {
    assert a == ['h', 'o', 'm', 'e'] && b == ['H', 'o', 'm', 'e'];
    assert AsciiLower('H') == 'h';
  }

  /** "Home" is taken by " home " already saved: names are trimmed and compared ignoring ASCII case. */
  lemma ClashIgnoresCaseAndSpaces(entries: seq<SavedDnsEntry>, name: string)
    requires entries == [SavedDnsEntry(" home ", "1.1.1.1", "1.0.0.1")] && name == "Home"
    ensures NameTaken(entries, Trim(name))
  {
    var home := "home";
    assert home[0] == 'h' && home[|home| - 1] == 'e';
    assert entries[0].name == [' '] + home + [' '];
    assert name == ['H', 'o', 'm', 'e'];
    TrimWithoutWhitespace(name);
    HomeEqualsIgnoringCase(home, name);
    PaddedNameTaken(entries, home, name);
  }

  /** A single entry whose name is `inner` padded by one space on each side clashes with what `inner` clashes with. */
  lemma PaddedNameTaken(entries: seq<SavedDnsEntry>, inner: string, name: string)
    requires |entries| == 1 && entries[0].name == [' '] + inner + [' ']
    requires inner != [] && !IsWhitespace(inner[0]) && !IsWhitespace(inner[|inner| - 1])
    requires EqIgnoreAsciiCase(inner, name)
    ensures NameTaken(entries, name)
  {
    TrimSpacePadding(inner);
    assert EqIgnoreAsciiCase(Trim(entries[0].name), name);
  }

  /** Event `k` is the last provider change of the click. */
  predicate LastProviderChange(events: seq<Ui.UiEvent>, k: int)
    requires 0 <= k < |events|
  {
    events[k].ProviderChanged? && forall j :: k < j < |events| ==> !events[j].ProviderChanged?
  }

  // ---------------------------------------------------------------------------
  // The application
  // ---------------------------------------------------------------------------

  class MyApp {
    var adapter: Option<string>
    var dns: seq<string>
    var appState: AppState
    var selected: DnsProvider
    var dnsState: DnsState
    var customPrimary: string
    var customSecondary: string
    /** The operation channel: the result the running worker will deliver, if a worker runs. */
    var pending: Option<OperationResult>
    var showMonitor: bool
    var pingValue: real
    var pingHistory: seq<real>
    /** Whether the latency sampler's channel is open. */
    var pingChannel: bool
    /** The process-wide flag the title bar's monitor button raises. */
    var pingRequest: bool
    var showCustomWindow: bool
    var showAddWindow: bool
    var savedEntries: seq<SavedDnsEntry>
    var newName: string
    var newPrimary: string
    var newSecondary: string
    var addError: Option<string>

    /**
     * The derived DNS view matches the server list; a Processing state
     * always has a worker to wait for; the history is bounded; the sampler
     * runs exactly while the monitor is open, and a closed monitor holds no
     * samples.
     */
    predicate Valid()
      reads this`dnsState, this`dns, this`appState, this`pending, this`pingHistory, this`pingChannel,
        this`showMonitor, this`pingValue
    {
      && dnsState == DeriveDnsState(dns)
      && (appState.Processing? ==> pending.Some?)
      && |pingHistory| <= PingCapacity
      && (pingChannel <==> showMonitor)
      && (!pingChannel ==> pingHistory == [] && pingValue == 0.0)
    }

    /** Everything at its default, with the saved entries loaded from the store. */
    constructor(store: Storage.Store)
      ensures Valid()
      ensures savedEntries == Storage.LoadSavedDns(store.file)
      ensures appState == DefaultAppState && dnsState == DefaultDnsState && selected == DefaultProvider()
      ensures adapter.None? && dns == [] && pending.None?
      ensures !showMonitor && pingHistory == [] && pingValue == 0.0 && !pingRequest
      ensures !showCustomWindow && !showAddWindow && addError.None?
      ensures customPrimary == [] && customSecondary == [] && newName == [] && newPrimary == [] && newSecondary == []
    {
      adapter := Option.None;
      dns := [];
      appState := DefaultAppState;
      selected := DefaultProvider();
      dnsState := DefaultDnsState;
      customPrimary := "";
      customSecondary := "";
      pending := Option.None;
      showMonitor := false;
      pingValue := 0.0;
      pingHistory := [];
      pingChannel := false;
      pingRequest := false;
      showCustomWindow := false;
      showAddWindow := false;
      savedEntries := Storage.LoadSavedDns(store.file);
      newName := "";
      newPrimary := "";
      newSecondary := "";
      addError := Option.None;
    }

    /**
     * Starts `op`: Processing, the freshly resolved adapter recorded, and a
     * new channel whose result replaces whatever an earlier worker would
     * have delivered.
     */
    method HandleOperation(op: DnsOperation, resolved: Option<string>, gw: Gateway)
      requires Valid()
      modifies this`appState, this`adapter, this`pending
      ensures Valid()
      ensures appState == Processing
      ensures adapter == resolved
      ensures pending == Some(WorkerResult(op, resolved, gw))
    {
      appState := Processing;
      adapter := resolved;
      var result := WorkerResult(op, resolved, gw);
      pending := Some(result);
    }

    /** Recomputes the derived DNS view from the server list. */
    method UpdateDnsState()
      modifies this`dnsState
      ensures dnsState == DeriveDnsState(dns)
    {
      if dns == [] {
        dnsState := DnsState.None;
      } else if |dns| == 1 && Contains(dns[0], "dhcp") {
        dnsState := Dhcp;
      } else {
        dnsState := Static(dns);
      }
    }

    /**
     * Folds a finished operation into the state. Only a success with a
     * recorded adapter re-reads the servers; errors and warnings change the
     * state and nothing else.
     */
    method HandleOperationResult(result: OperationResult, gw: Gateway)
      requires Valid()
      modifies this`appState, this`dns, this`dnsState
      ensures Valid()
      ensures appState == FoldedState(result)
      ensures result.Success? && adapter.Some? ==> dns == gw.currentDns(adapter.value)
      ensures !(result.Success? && adapter.Some?) ==> dns == old(dns) && dnsState == old(dnsState)
    {
      match result
      case Success(message) =>
        appState := AppState.Success(message);
        if adapter.Some? {
          dns := gw.currentDns(adapter.value);
          UpdateDnsState();
        }
      case Error(message) =>
        appState := AppState.Error(message);
      case Warning(message) =>
        appState := AppState.Warning(message);
    }

    /**
     * One frame's look at the operation channel. `arrived` says whether the
     * worker has sent its result yet. A delivered result is folded and the
     * channel dropped; a frame asks to be redrawn when a result arrived or
     * while the operation is still Processing.
     */
    method PollOperation(arrived: bool, gw: Gateway) returns (repaint: bool)
      requires Valid()
      modifies this`appState, this`dns, this`dnsState, this`pending
      ensures Valid()
      ensures old(pending).Some? && arrived ==>
        pending.None? && appState == FoldedState(old(pending).value) && repaint
      ensures old(pending).Some? && arrived && old(pending).value.Success? && adapter.Some? ==>
        dns == gw.currentDns(adapter.value)
      ensures old(pending).Some? && arrived && !(old(pending).value.Success? && adapter.Some?) ==>
        dns == old(dns) && dnsState == old(dnsState)
      ensures !(old(pending).Some? && arrived) ==>
        pending == old(pending) && appState == old(appState) && dns == old(dns) && dnsState == old(dnsState)
        && repaint == (old(pending).Some? && appState.Processing?)
    {
      repaint := false;
      if pending.Some? {
        if arrived {
          var result := pending.value;
          HandleOperationResult(result, gw);
          pending := Option.None;
          repaint := true;
        } else if appState.Processing? {
          repaint := true;
        }
      }
    }

    /**
     * A second operation started before the first one's result is drained:
     * the first channel is dropped with its result, so the next drain folds
     * the second operation's result and nothing else.
     */
    method OverlappingDispatches(first: DnsOperation, firstAdapter: Option<string>,
                                 second: DnsOperation, secondAdapter: Option<string>, gw: Gateway)
      requires Valid()
      modifies this`appState, this`adapter, this`pending, this`dns, this`dnsState
      ensures Valid()
      ensures adapter == secondAdapter && pending.None?
      ensures appState == FoldedState(WorkerResult(second, secondAdapter, gw))
    {
      HandleOperation(first, firstAdapter, gw);
      HandleOperation(second, secondAdapter, gw);
      var _ := PollOperation(true, gw);
    }

    /** One frame's look at the latency channel; `sample` is what the sampler has sent, if anything. */
    method PollPing(sample: Option<real>) returns (repaint: bool)
      requires Valid()
      modifies this`pingValue, this`pingHistory
      ensures Valid()
      ensures pingChannel && sample.Some? ==>
        pingValue == sample.value && pingHistory == PushSample(old(pingHistory), sample.value) && repaint
      ensures !(pingChannel && sample.Some?) ==>
        pingValue == old(pingValue) && pingHistory == old(pingHistory) && !repaint
    {
      repaint := false;
      if pingChannel && sample.Some? {
        var ping := sample.value;
        pingValue := ping;
        if |pingHistory| >= PingCapacity {
          pingHistory := pingHistory[1..];
        }
        pingHistory := pingHistory + [ping];
        repaint := true;
      }
    }

    /** The title bar's monitor button: raise the request flag. */
    method RequestPing()
      modifies this`pingRequest
      ensures pingRequest
    {
      pingRequest := true;
    }

    /**
     * Serves a raised request flag: the flag is cleared, a sampler is
     * started only if none is running, and the monitor is shown.
     */
    method ServicePingRequest() returns (spawned: bool)
      requires Valid()
      modifies this`pingRequest, this`pingChannel, this`showMonitor
      ensures Valid()
      ensures !pingRequest
      ensures spawned <==> old(pingRequest) && !old(pingChannel)
      ensures old(pingRequest) ==> showMonitor && pingChannel
      ensures !old(pingRequest) ==> showMonitor == old(showMonitor) && pingChannel == old(pingChannel)
    {
      var requested := pingRequest;
      pingRequest := false;
      spawned := false;
      if requested {
        if !pingChannel {
          pingChannel := true;
          spawned := true;
        }
        showMonitor := true;
      }
    }

    /**
     * The monitor window's frame; `keepOpen` is false when the user closed
     * it. Closing stops the sampler and forgets every sample.
     */
    method MonitorFrame(keepOpen: bool)
      requires Valid()
      modifies this`showMonitor, this`pingChannel, this`pingValue, this`pingHistory
      ensures Valid()
      ensures !old(showMonitor) ==>
        showMonitor == old(showMonitor) && pingChannel == old(pingChannel)
        && pingValue == old(pingValue) && pingHistory == old(pingHistory)
      ensures old(showMonitor) ==> showMonitor == keepOpen
      ensures old(showMonitor) && !keepOpen ==> !pingChannel && pingHistory == [] && pingValue == 0.0
      ensures old(showMonitor) && keepOpen ==> pingValue == old(pingValue) && pingHistory == old(pingHistory)
    {
      if !showMonitor {
        return;
      }
      showMonitor := keepOpen;
      if !showMonitor {
        pingChannel := false;
        pingValue := 0.0;
        pingHistory := [];
      }
    }

    /**
     * The callbacks of one click on the provider list, applied after the
     * list is drawn: the add window opens, the last provider change is
     * taken, and the custom window opens.
     */
    method ApplyListEvents(events: seq<Ui.UiEvent>)
      requires Valid()
      modifies this`showAddWindow, this`selected, this`showCustomWindow
      ensures Valid()
      ensures showAddWindow == (old(showAddWindow) || Ui.AddNew in events)
      ensures showCustomWindow == (old(showCustomWindow) || Ui.CustomSelected in events)
      ensures (forall k :: 0 <= k < |events| ==> !events[k].ProviderChanged?) ==> selected == old(selected)
      ensures forall k :: 0 <= k < |events| && LastProviderChange(events, k) ==> selected == events[k].provider
    {
      var openAddNew := false;
      var providerChanged: Option<DnsProvider> := Option.None;
      var openCustom := false;
      var last := -1;
      for i := 0 to |events|
        invariant openAddNew == (Ui.AddNew in events[..i])
        invariant openCustom == (Ui.CustomSelected in events[..i])
        invariant -1 <= last < i
        invariant last == -1 ==> providerChanged.None? && forall k :: 0 <= k < i ==> !events[k].ProviderChanged?
        invariant last >= 0 ==>
          && events[last].ProviderChanged? && providerChanged == Some(events[last].provider)
          && forall k :: last < k < i ==> !events[k].ProviderChanged?
      {
        assert events[..i + 1] == events[..i] + [events[i]];
        match events[i]
        case ProviderChanged(p) =>
          providerChanged := Some(p);
          last := i;
        case CustomSelected =>
          openCustom := true;
        case AddNew =>
          openAddNew := true;
      }
      assert events[..|events|] == events;
      if openAddNew {
        showAddWindow := true;
      }
      if providerChanged.Some? {
        selected := providerChanged.value;
      }
      if openCustom {
        showCustomWindow := true;
      }
    }

    /**
     * A click on row `i` of the provider list: the add row opens the add
     * window, the Custom row selects the typed pair and opens the custom
     * window, any other row selects its provider.
     */
    method ClickProviderRow(i: nat)
      requires Valid()
      requires i < 7 + |savedEntries|
      modifies this`showAddWindow, this`selected, this`showCustomWindow
      ensures Valid()
      ensures i == 6 + |savedEntries| ==> showAddWindow && selected == old(selected) && showCustomWindow == old(showCustomWindow)
      ensures i == 5 ==> selected == CustomDns(customPrimary, customSecondary) && showCustomWindow && showAddWindow == old(showAddWindow)
      ensures 6 <= i < 6 + |savedEntries| ==>
        && selected == EntryProvider(savedEntries[i - 6])
        && showCustomWindow == old(showCustomWindow) && showAddWindow == old(showAddWindow)
      ensures i < 5 ==>
        && selected == [ElectroDns(), RadarDns(), ShekanDns(), BogzarDns(), Quad9Dns()][i]
        && Ui.TagPosition(Tag(selected)) == i
        && showCustomWindow == old(showCustomWindow) && showAddWindow == old(showAddWindow)
    {
      var items := Ui.BuildProviderList(customPrimary, customSecondary, savedEntries);
      Ui.ClickOnProviderList(customPrimary, customSecondary, savedEntries, i);
      assert items[..6] == Ui.FixedItems(customPrimary, customSecondary);
      if i < 5 {
        assert items[i] == Ui.FixedItems(customPrimary, customSecondary)[i];
      }
      var events := Ui.ClickEvents(items, i);
      ApplyListEvents(events);
    }

    /**
     * The custom window's frame: the typed addresses, an optional clear, and
     * `keepOpen` false when the user closed it. A Custom selection is
     * refreshed to the current addresses every frame.
     */
    method CustomWindowFrame(typedPrimary: string, typedSecondary: string, clearRequested: bool, keepOpen: bool)
      requires Valid()
      modifies this`customPrimary, this`customSecondary, this`showCustomWindow, this`selected
      ensures Valid()
      ensures !old(showCustomWindow) ==>
        && customPrimary == old(customPrimary) && customSecondary == old(customSecondary)
        && showCustomWindow == old(showCustomWindow) && selected == old(selected)
      ensures old(showCustomWindow) ==>
        && showCustomWindow == keepOpen
        && customPrimary == (if clearRequested then "" else typedPrimary)
        && customSecondary == (if clearRequested then "" else typedSecondary)
        && (old(selected).Custom? ==> selected == CustomDns(customPrimary, customSecondary))
        && (!old(selected).Custom? ==> selected == old(selected))
    {
      if !showCustomWindow {
        return;
      }
      customPrimary := typedPrimary;
      customSecondary := typedSecondary;
      if clearRequested {
        customPrimary := "";
        customSecondary := "";
      }
      showCustomWindow := keepOpen;
      if selected.Custom? {
        selected := CustomDns(customPrimary, customSecondary);
      }
    }

    /** Whether some saved entry's trimmed name equals `name` up to ASCII case (`Iterator::any`). */
    method NameExists(name: string) returns (exists_: bool)
      ensures exists_ == NameTaken(savedEntries, name)
    {
      var entries := savedEntries;
      var k := 0;
      while k < |entries| && !Clashes(entries[k], name)
        invariant 0 <= k <= |entries|
        invariant forall j :: 0 <= j < k ==> !Clashes(entries[j], name)
      {
        k := k + 1;
      }
      exists_ := k < |entries|;
    }

    /** Empties the three inputs of the add window. */
    method ClearInputs()
      modifies this`newName, this`newPrimary, this`newSecondary
      ensures newName == [] && newPrimary == [] && newSecondary == []
    {
      newName := "";
      newPrimary := "";
      newSecondary := "";
    }

    /**
     * The checks of the save button, in the order they are made: the trimmed
     * name against the saved names, then the name and both addresses.
     */
    method JudgeInputs() returns (v: AddVerdict)
      ensures v == Judge(savedEntries, newName, newPrimary, newSecondary)
    {
      var nameValid := Trim(newName) != [];
      var primaryOk := Ui.IsValidIp(newPrimary);
      var primaryValid := Trim(newPrimary) != [] && primaryOk;
      var secondaryOk := Ui.IsValidIp(newSecondary);
      var secondaryValid := Trim(newSecondary) != [] && secondaryOk;
      var nameTrimmed := Trim(newName);
      var nameExists := NameExists(nameTrimmed);
      ClashFoundIsNameTaken(savedEntries, nameTrimmed);
      if nameExists {
        v := Duplicate(nameTrimmed);
      } else if nameValid && primaryValid && secondaryValid {
        v := Accepted(SavedDnsEntry(nameTrimmed, Trim(newPrimary), Trim(newSecondary)));
      } else {
        v := Invalid;
      }
    }

    /**
     * Acts on the verdict of the save button. The store is written first;
     * the list, the selection and the state change only once that write
     * succeeds.
     */
    method ApplyVerdict(verdict: AddVerdict, store: Storage.Store, outcome: Storage.WriteOutcome) returns (shouldClose: bool)
      requires Valid()
      modifies this`addError, this`savedEntries, this`selected, this`appState, this`newName, this`newPrimary, this`newSecondary, store
      ensures Valid()
      ensures shouldClose <==> verdict.Accepted? && outcome.Written?
      ensures verdict.Duplicate? ==> addError == Some(DuplicateMessage(verdict.name))
      ensures verdict.Invalid? ==> addError == Some(InvalidInputMessage)
      ensures !verdict.Accepted? ==> store.file == old(store.file)
      ensures verdict.Accepted? ==>
        store.file == Storage.AfterSave(old(store.file), Storage.LoadSavedDns(old(store.file)) + [verdict.entry], outcome)
      ensures verdict.Accepted? && !outcome.Written? ==>
        addError == Some("Failed to save DNS: " + Storage.SaveResult(outcome).message)
      ensures !shouldClose ==>
        && savedEntries == old(savedEntries) && selected == old(selected) && appState == old(appState)
        && newName == old(newName) && newPrimary == old(newPrimary) && newSecondary == old(newSecondary)
      ensures shouldClose ==>
        && addError.None?
        && savedEntries == old(savedEntries) + [verdict.entry]
        && selected == EntryProvider(verdict.entry)
        && appState == AppState.Success(SavedMessage)
        && newName == [] && newPrimary == [] && newSecondary == []
    {
      shouldClose := false;
      match verdict
      case Duplicate(nameTrimmed) =>
        addError := Some(DuplicateMessage(nameTrimmed));
      case Invalid =>
        addError := Some(InvalidInputMessage);
      case Accepted(entry) =>
        addError := Option.None;
        var r := store.AddSavedDns(entry, outcome);
        if r.Fail? {
          addError := Some("Failed to save DNS: " + r.message);
        } else {
          savedEntries := savedEntries + [entry];
          selected := SavedDns(entry.name, entry.primary, entry.secondary);
          appState := AppState.Success(SavedMessage);
          ClearInputs();
          shouldClose := true;
        }
    }

    /** The add window's save button: judge the inputs, then act on the verdict. */
    method SaveNewEntry(store: Storage.Store, outcome: Storage.WriteOutcome) returns (shouldClose: bool, verdict: AddVerdict)
      requires Valid()
      modifies this`addError, this`savedEntries, this`selected, this`appState, this`newName, this`newPrimary, this`newSecondary, store
      ensures Valid()
      ensures verdict == Judge(old(savedEntries), old(newName), old(newPrimary), old(newSecondary))
      ensures shouldClose <==> verdict.Accepted? && outcome.Written?
      ensures verdict.Duplicate? ==> addError == Some(DuplicateMessage(verdict.name))
      ensures verdict.Invalid? ==> addError == Some(InvalidInputMessage)
      ensures !verdict.Accepted? ==> store.file == old(store.file)
      ensures verdict.Accepted? ==>
        store.file == Storage.AfterSave(old(store.file), Storage.LoadSavedDns(old(store.file)) + [verdict.entry], outcome)
      ensures verdict.Accepted? && !outcome.Written? ==>
        addError == Some("Failed to save DNS: " + Storage.SaveResult(outcome).message)
      ensures !shouldClose ==>
        && savedEntries == old(savedEntries) && selected == old(selected) && appState == old(appState)
        && newName == old(newName) && newPrimary == old(newPrimary) && newSecondary == old(newSecondary)
      ensures shouldClose ==>
        && addError.None?
        && savedEntries == old(savedEntries) + [verdict.entry]
        && selected == EntryProvider(verdict.entry)
        && appState == AppState.Success(SavedMessage)
        && newName == [] && newPrimary == [] && newSecondary == []
    {
      verdict := JudgeInputs();
      shouldClose := ApplyVerdict(verdict, store, outcome);
    }

    /**
     * The end of the add window's frame: a saved entry closes the window,
     * otherwise it stays as the user left it; a closed window forgets its
     * inputs and its error.
     */
    method FinishAddWindow(shouldClose: bool, keepOpen: bool)
      requires Valid()
      modifies this`showAddWindow, this`newName, this`newPrimary, this`newSecondary, this`addError
      ensures Valid()
      ensures showAddWindow == (keepOpen && !shouldClose)
      ensures !showAddWindow ==> newName == [] && newPrimary == [] && newSecondary == [] && addError.None?
      ensures showAddWindow ==>
        && newName == old(newName) && newPrimary == old(newPrimary)
        && newSecondary == old(newSecondary) && addError == old(addError)
    {
      if shouldClose {
        showAddWindow := false;
      } else {
        showAddWindow := keepOpen;
      }
      if !showAddWindow {
        ClearInputs();
        addError := Option.None;
      }
    }

    /**
     * The typed inputs of the add window, then the save button when it was
     * pressed; `shouldClose` tells whether the entry was stored.
     */
    method TypeAndSave(typedName: string, typedPrimary: string, typedSecondary: string,
                       saveRequested: bool, store: Storage.Store, outcome: Storage.WriteOutcome)
      returns (verdict: Option<AddVerdict>, shouldClose: bool)
      requires Valid()
      modifies this`addError, this`savedEntries, this`selected, this`appState, this`newName, this`newPrimary, this`newSecondary, store
      ensures Valid()
      ensures verdict.Some? <==> saveRequested
      ensures verdict.Some? ==> verdict.value == Judge(old(savedEntries), typedName, typedPrimary, typedSecondary)
      ensures shouldClose <==> verdict.Some? && verdict.value.Accepted? && outcome.Written?
      ensures verdict.None? ==> addError == old(addError)
      ensures verdict.Some? && verdict.value.Duplicate? ==> addError == Some(DuplicateMessage(verdict.value.name))
      ensures verdict.Some? && verdict.value.Invalid? ==> addError == Some(InvalidInputMessage)
      ensures verdict.Some? && verdict.value.Accepted? && !outcome.Written? ==>
        addError == Some("Failed to save DNS: " + Storage.SaveResult(outcome).message)
      ensures verdict.Some? && verdict.value.Accepted? ==>
        store.file == Storage.AfterSave(old(store.file), Storage.LoadSavedDns(old(store.file)) + [verdict.value.entry], outcome)
      ensures !(verdict.Some? && verdict.value.Accepted?) ==> store.file == old(store.file)
      ensures shouldClose ==>
        && addError.None?
        && savedEntries == old(savedEntries) + [verdict.value.entry]
        && selected == EntryProvider(verdict.value.entry)
        && appState == AppState.Success(SavedMessage)
        && newName == [] && newPrimary == [] && newSecondary == []
      ensures !shouldClose ==>
        && savedEntries == old(savedEntries) && selected == old(selected) && appState == old(appState)
        && newName == typedName && newPrimary == typedPrimary && newSecondary == typedSecondary
    {
      newName, newPrimary, newSecondary := typedName, typedPrimary, typedSecondary;
      shouldClose := false;
      verdict := Option.None;
      if saveRequested {
        var v;
        shouldClose, v := SaveNewEntry(store, outcome);
        verdict := Some(v);
      }
    }

    /**
     * The add window's frame: the typed inputs, whether save was pressed,
     * and `keepOpen` false when the user closed it. A saved entry closes the
     * window; a closed window forgets its inputs and its error. The verdict
     * of the save button is returned when it was pressed.
     */
    method AddWindowFrame(typedName: string, typedPrimary: string, typedSecondary: string,
                          saveRequested: bool, keepOpen: bool,
                          store: Storage.Store, outcome: Storage.WriteOutcome)
      returns (verdict: Option<AddVerdict>)
      requires Valid()
      modifies this`addError, this`savedEntries, this`selected, this`appState, this`newName, this`newPrimary, this`newSecondary,
        this`showAddWindow, store
      ensures Valid()
      ensures verdict.Some? <==> old(showAddWindow) && saveRequested
      ensures verdict.Some? ==> verdict.value == Judge(old(savedEntries), typedName, typedPrimary, typedSecondary)
      ensures !old(showAddWindow) ==>
        && showAddWindow == old(showAddWindow) && savedEntries == old(savedEntries) && selected == old(selected)
        && appState == old(appState) && addError == old(addError) && store.file == old(store.file)
        && newName == old(newName) && newPrimary == old(newPrimary) && newSecondary == old(newSecondary)
      ensures old(showAddWindow) ==>
        showAddWindow == (keepOpen && !(verdict.Some? && verdict.value.Accepted? && outcome.Written?))
      ensures verdict.Some? && verdict.value.Accepted? ==>
        store.file == Storage.AfterSave(old(store.file), Storage.LoadSavedDns(old(store.file)) + [verdict.value.entry], outcome)
      ensures !(verdict.Some? && verdict.value.Accepted?) ==> store.file == old(store.file)
      ensures verdict.Some? && verdict.value.Accepted? && outcome.Written? ==>
        && savedEntries == old(savedEntries) + [verdict.value.entry]
        && selected == EntryProvider(verdict.value.entry)
        && appState == AppState.Success(SavedMessage)
      ensures !(verdict.Some? && verdict.value.Accepted? && outcome.Written?) ==>
        && savedEntries == old(savedEntries) && selected == old(selected) && appState == old(appState)
      ensures old(showAddWindow) && !showAddWindow ==> newName == [] && newPrimary == [] && newSecondary == [] && addError.None?
      ensures old(showAddWindow) && showAddWindow ==>
        && newName == typedName && newPrimary == typedPrimary && newSecondary == typedSecondary
        && (verdict.None? ==> addError == old(addError))
        && (verdict.Some? && verdict.value.Duplicate? ==> addError == Some(DuplicateMessage(verdict.value.name)))
        && (verdict.Some? && verdict.value.Invalid? ==> addError == Some(InvalidInputMessage))
        && (verdict.Some? && verdict.value.Accepted? ==>
              addError == Some("Failed to save DNS: " + Storage.SaveResult(outcome).message))
    {
      verdict := Option.None;
      if showAddWindow {
        var shouldClose;
        verdict, shouldClose := TypeAndSave(typedName, typedPrimary, typedSecondary, saveRequested, store, outcome);
        FinishAddWindow(shouldClose, keepOpen);
      }
    }

    /**
     * The delete button of a saved entry. The store is written first; only
     * on success is the entry dropped from the list, and a selection of
     * that entry falls back to Electro.
     */
    method DeleteEntry(name: string, store: Storage.Store, outcome: Storage.WriteOutcome)
      requires Valid()
      modifies this`savedEntries, this`selected, this`appState, store
      ensures Valid()
      ensures store.file == Storage.AfterSave(old(store.file), Storage.WithoutName(Storage.LoadSavedDns(old(store.file)), name), outcome)
      ensures !outcome.Written? ==>
        appState == AppState.Error("Failed to delete DNS: " + Storage.SaveResult(outcome).message)
        && savedEntries == old(savedEntries) && selected == old(selected)
      ensures outcome.Written? ==>
        appState == AppState.Success(DeletedMessage)
        && savedEntries == Storage.WithoutName(old(savedEntries), name)
        && (old(selected).Saved? && old(selected).name == name ==> selected == ElectroDns())
        && (!(old(selected).Saved? && old(selected).name == name) ==> selected == old(selected))
    {
      var r := store.DeleteSavedDns(name, outcome);
      if r.Fail? {
        appState := AppState.Error("Failed to delete DNS: " + r.message);
      } else {
        savedEntries := Storage.Retain(savedEntries, name);
        if selected.Saved? && selected.name == name {
          selected := ElectroDns();
        }
        appState := AppState.Success(DeletedMessage);
      }
    }
  }
}
