/**
 * The domain types of the DNS switcher: the closed set of providers, a saved
 * entry, the three operations, their results, the application state and the
 * derived view of the adapter's DNS configuration.
 */
module Domain {

  /** A user-defined, persisted resolver pair. */
  datatype SavedDnsEntry = SavedDnsEntry(name: string, primary: string, secondary: string)

  /**
   * A resolver pair: five fixed well-known providers, the user-typed Custom
   * pair, and a Saved entry referenced by its name.
   */
  datatype DnsProvider =
    | Electro(primary: string, secondary: string)
    | Radar(primary: string, secondary: string)
    | Shekan(primary: string, secondary: string)
    | Bogzar(primary: string, secondary: string)
    | Quad9(primary: string, secondary: string)
    | Custom(primary: string, secondary: string)
    | Saved(name: string, primary: string, secondary: string)

  /** The variant of a provider with its data dropped (Rust's `std::mem::discriminant`). */
  datatype ProviderTag = ElectroTag | RadarTag | ShekanTag | BogzarTag | Quad9Tag | CustomTag | SavedTag

  function Tag(p: DnsProvider): (t: ProviderTag)
    ensures t == SavedTag <==> p.Saved?
    ensures t == CustomTag <==> p.Custom?
  {
    match p
    case Electro(_, _) => ElectroTag
    case Radar(_, _) => RadarTag
    case Shekan(_, _) => ShekanTag
    case Bogzar(_, _) => BogzarTag
    case Quad9(_, _) => Quad9Tag
    case Custom(_, _) => CustomTag
    case Saved(_, _, _) => SavedTag
  }

  function ElectroDns(): (p: DnsProvider)
    ensures Tag(p) == ElectroTag && GetServers(p) == ("78.157.42.100", "78.157.42.101")
  {
    Electro("78.157.42.100", "78.157.42.101")
  }

  function RadarDns(): (p: DnsProvider)
    ensures Tag(p) == RadarTag && GetServers(p) == ("10.202.10.10", "10.202.10.11")
  {
    Radar("10.202.10.10", "10.202.10.11")
  }

  function ShekanDns(): (p: DnsProvider)
    ensures Tag(p) == ShekanTag && GetServers(p) == ("178.22.122.100", "185.51.200.2")
  {
    Shekan("178.22.122.100", "185.51.200.2")
  }

  function BogzarDns(): (p: DnsProvider)
    ensures Tag(p) == BogzarTag && GetServers(p) == ("185.55.226.26", "185.55.225.25")
  {
    Bogzar("185.55.226.26", "185.55.225.25")
  }

  function Quad9Dns(): (p: DnsProvider)
    ensures Tag(p) == Quad9Tag && GetServers(p) == ("9.9.9.9", "149.112.112.112")
  {
    Quad9("9.9.9.9", "149.112.112.112")
  }

  /** The Custom provider keeps the typed addresses as they are. */
  function CustomDns(primary: string, secondary: string): (p: DnsProvider)
    ensures p.Custom? && GetServers(p) == (primary, secondary)
  {
    Custom(primary, secondary)
  }

  /** The Saved provider keeps name and addresses as they are. */
  function SavedDns(name: string, primary: string, secondary: string): (p: DnsProvider)
    ensures p.Saved? && DisplayName(p) == name && GetServers(p) == (primary, secondary)
  {
    Saved(name, primary, secondary)
  }

  /** The provider that stands for a saved entry. */
  function EntryProvider(e: SavedDnsEntry): (p: DnsProvider)
    ensures p.Saved? && p.name == e.name && GetServers(p) == (e.primary, e.secondary)
  {
    SavedDns(e.name, e.primary, e.secondary)
  }

  /** The stored (primary, secondary) pair of any variant; a Saved name plays no part. */
  function GetServers(p: DnsProvider): (servers: (string, string))
    ensures servers.0 == p.primary && servers.1 == p.secondary
  {
    match p
    case Electro(primary, secondary) => (primary, secondary)
    case Radar(primary, secondary) => (primary, secondary)
    case Shekan(primary, secondary) => (primary, secondary)
    case Bogzar(primary, secondary) => (primary, secondary)
    case Quad9(primary, secondary) => (primary, secondary)
    case Custom(primary, secondary) => (primary, secondary)
    case Saved(_, primary, secondary) => (primary, secondary)
  }

  /** The fixed label of every variant but Saved, whose label is its own name. */
  function DisplayName(p: DnsProvider): (shown: string)
    ensures p.Saved? ==> shown == p.name
    ensures !p.Saved? ==> shown == TagLabel(Tag(p))
  {
    match p
    case Electro(_, _) => "Electro"
    case Radar(_, _) => "Radar"
    case Shekan(_, _) => "Shekan"
    case Bogzar(_, _) => "Bogzar"
    case Quad9(_, _) => "Quad9"
    case Custom(_, _) => "Custom"
    case Saved(name, _, _) => name
  }

  /** The label each fixed variant is shown with; a Saved entry has none of its own. */
  function TagLabel(t: ProviderTag): string {
    match t
    case ElectroTag => "Electro"
    case RadarTag => "Radar"
    case ShekanTag => "Shekan"
    case BogzarTag => "Bogzar"
    case Quad9Tag => "Quad9"
    case CustomTag => "Custom"
    case SavedTag => ""
  }

  /** Distinct fixed variants are shown with distinct labels. */
  lemma {:induction false} DisplayNameSeparatesFixedVariants(a: DnsProvider, b: DnsProvider)
    requires !a.Saved? && !b.Saved?
    ensures DisplayName(a) == DisplayName(b) <==> Tag(a) == Tag(b)
  {
  }

  /** The provider in force before the user picks one. */
  function DefaultProvider(): (p: DnsProvider)
    ensures p == ElectroDns() && DisplayName(p) == "Electro"
  {
    ElectroDns()
  }

  /** A DNS operation the user can start. */
  datatype DnsOperation = Set(provider: DnsProvider) | Clear | Test

  /** What a finished operation reports. */
  datatype OperationResult = Success(message: string) | Error(message: string) | Warning(message: string)

  /** The user-visible state of the last operation; `Idle` is the default. */
  datatype AppState = Idle | Processing | Success(message: string) | Error(message: string) | Warning(message: string)

  /** The derived view of the adapter's configured servers; `None` is the default. */
  datatype DnsState = Static(servers: seq<string>) | Dhcp | None

  const DefaultAppState: AppState := Idle
  const DefaultDnsState: DnsState := DnsState.None
}
