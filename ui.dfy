/**
 * The logic inside the user interface: address validation, the flag the
 * address field reports, and the provider list with its selected index,
 * highlighting and click callbacks.
 */
module Ui {
  import opened Base
  import opened Text
  import opened Domain

  // ---------------------------------------------------------------------------
  // Address validation
  // ---------------------------------------------------------------------------

  predicate IsDigit(c: char) { '0' <= c <= '9' }

  predicate AllDigits(ds: string) {
    forall i :: 0 <= i < |ds| ==> IsDigit(ds[i])
  }

  /** The value of a run of decimal digits, most significant first. */
  function DigitsValue(ds: string): nat
    requires AllDigits(ds)
  {
    if ds == [] then 0 else DigitsValue(ds[..|ds| - 1]) * 10 + (ds[|ds| - 1] as int - '0' as int)
  }

  /**
   * Rust's `u8::from_str`: an optional single leading '+', then one or more
   * decimal digits (leading zeros allowed) whose value fits in a byte.
   * Whitespace, '-' and every other character are refused.
   */
  function ParseU8(t: string): (r: Option<nat>)
    ensures r.Some? ==> r.value <= 255
    ensures r.Some? ==> t != [] && t != "+"
    ensures r.Some? ==> forall i :: 0 <= i < |t| ==> IsDigit(t[i]) || (i == 0 && t[i] == '+')
    ensures r.Some? ==> var digits := if t[0] == '+' then t[1..] else t;
      AllDigits(digits) && r.value == DigitsValue(digits)
  {
    if t == [] || t == "+" || t == "-" then Option.None
    else
      var digits := if t[0] == '+' then t[1..] else t;
      if AllDigits(digits) && DigitsValue(digits) <= 255 then Some(DigitsValue(digits)) else Option.None
  }

  /** The canonical decimal spelling of `n`. */
  function Decimal(n: nat): (ds: string)
    ensures ds != [] && AllDigits(ds)
  {
    if n < 10 then [('0' as int + n) as char]
    else Decimal(n / 10) + [('0' as int + n % 10) as char]
  }

  lemma {:induction false} DecimalValue(n: nat)
    ensures DigitsValue(Decimal(n)) == n
  {
    if n >= 10 {
      DecimalValue(n / 10);
      var ds := Decimal(n);
      assert ds[..|ds| - 1] == Decimal(n / 10);
    }
  }

  /** Every byte value is accepted in its decimal spelling, with or without a leading '+'. */
  lemma ParseU8Decimal(n: nat)
    requires n <= 255
    ensures ParseU8(Decimal(n)) == Some(n)
    ensures ParseU8("+" + Decimal(n)) == Some(n)
  {
    DecimalValue(n);
    var ds := Decimal(n);
    assert ("+" + ds)[1..] == ds;
  }

  lemma {:induction false} LeadingZeroValue(ds: string)
    requires AllDigits(ds)
    ensures AllDigits("0" + ds) && DigitsValue("0" + ds) == DigitsValue(ds)
  {
    if ds != [] {
      var z := "0" + ds;
      assert z[..|z| - 1] == "0" + ds[..|ds| - 1];
      LeadingZeroValue(ds[..|ds| - 1]);
    }
  }

  /** A leading zero does not change what a run of digits parses to. */
  lemma LeadingZeroAccepted(ds: string)
    requires ds != [] && AllDigits(ds)
    ensures ParseU8("0" + ds) == ParseU8(ds)
  {
    LeadingZeroValue(ds);
  }

  /** `is_valid_ip`: exactly four '.'-separated parts, each accepted by `u8` parsing. */
  predicate ValidIp(ip: string)
    ensures ValidIp(ip) ==> ip != []
  {
    var parts := Split(ip, '.');
    |parts| == 4 && forall i :: 0 <= i < 4 ==> ParseU8(parts[i]).Some?
  }

  /** The validation loop of `is_valid_ip`, with its early returns. */
  method IsValidIp(ip: string) returns (ok: bool)
    ensures ok == ValidIp(ip)
  {
    var parts := Split(ip, '.');
    if |parts| != 4 {
      return false;
    }
    for i := 0 to |parts|
      invariant forall j :: 0 <= j < i ==> ParseU8(parts[j]).Some?
    {
      if ParseU8(parts[i]).None? {
        return false;
      }
    }
    return true;
  }

  /** Four accepted parts joined by dots always form a valid address. */
  lemma ValidIpOfOctets(a: string, b: string, c: string, d: string)
    requires ParseU8(a).Some? && ParseU8(b).Some? && ParseU8(c).Some? && ParseU8(d).Some?
    ensures ValidIp(a + "." + b + "." + c + "." + d)
  {
    AcceptedPartHasNoDot(a);
    AcceptedPartHasNoDot(b);
    AcceptedPartHasNoDot(c);
    AcceptedPartHasNoDot(d);
    var parts := [a, b, c, d];
    JoinFour(a, b, c, d, ".");
    SplitJoin(parts, '.');
    var ip := Join(parts, ".");
    assert Split(ip, '.') == parts;
    assert ValidIp(ip);
  }

  /** A part that `u8` parsing accepts holds no '.'. */
  lemma AcceptedPartHasNoDot(t: string)
    requires ParseU8(t).Some?
    ensures '.' !in t
  {
    forall i | 0 <= i < |t| ensures t[i] != '.' {
    }
  }

  /** Every valid address is four accepted parts joined by dots. */
  lemma OctetsOfValidIp(ip: string)
    requires ValidIp(ip)
    ensures var p := Split(ip, '.');
      ip == p[0] + "." + p[1] + "." + p[2] + "." + p[3]
      && ParseU8(p[0]).Some? && ParseU8(p[1]).Some? && ParseU8(p[2]).Some? && ParseU8(p[3]).Some?
  {
    var p := Split(ip, '.');
    JoinSplit(ip, '.');
    assert p == [p[0], p[1], p[2], p[3]];
    JoinFour(p[0], p[1], p[2], p[3], ".");
  }

  /** An address with three or five parts is refused. */
  lemma WrongPartCountRejected()
    ensures !ValidIp("1.2.3") && !ValidIp("1.2.3.4.5") && !ValidIp("")
  {
    SplitWithoutSeparator("3", '.');
    SplitWithoutSeparator("5", '.');
    SplitDigitThenRest('4', "5");
    SplitDigitThenRest('3', "4.5");
    SplitDigitThenRest('2', "3");
    SplitDigitThenRest('2', "3.4.5");
    SplitDigitThenRest('1', "2.3");
    SplitDigitThenRest('1', "2.3.4.5");
    assert Split("", '.') == [""];
  }

  /** Splitting "d." + rest, for a character d other than '.', peels off "d". */
  lemma SplitDigitThenRest(d: char, rest: string)
    requires d != '.'
    ensures Split([d, '.'] + rest, '.') == [[d]] + Split(rest, '.')
  {
    assert [d, '.'] + rest == [d] + ['.'] + rest;
    SplitAfterPiece([d], rest, '.');
  }

  /** A run of digits whose value exceeds a byte is refused, with or without a leading '+'. */
  lemma AboveByteRefused(ds: string)
    requires ds != [] && AllDigits(ds) && DigitsValue(ds) > 255
    ensures ParseU8(ds).None? && ParseU8("+" + ds).None?
  {
    assert ("+" + ds)[1..] == ds;
    assert IsDigit(ds[0]);
  }

  /** "256" is one past the largest byte. */
  lemma ParseU8Overflow()
    ensures ParseU8("256").None?
  {
    assert "256"[..2] == "25" && "25"[..1] == "2" && "2"[..0] == [];
    assert DigitsValue("2") == 2;
    assert DigitsValue("25") == 25;
    assert DigitsValue("256") == 256;
  }

  /** A part above 255 is refused. */
  lemma OutOfRangePartRejected(ip: string)
    requires ip == "256.0.0.1"
    ensures !ValidIp(ip)
  {
    assert ip == "256" + "." + "0" + "." + "0" + "." + "1";
    JoinFour("256", "0", "0", "1", ".");
    SplitJoin(["256", "0", "0", "1"], '.');
    ParseU8Overflow();
  }

  /** An empty part is refused. */
  lemma EmptyPartRejected()
    ensures !ValidIp("1..2.3")
  {
    assert "1..2.3" == "1" + "." + "" + "." + "2" + "." + "3";
    JoinFour("1", "", "2", "3", ".");
    SplitJoin(["1", "", "2", "3"], '.');
  }

  /** A leading space is refused: addresses are checked untrimmed. */
  lemma LeadingSpaceRejected()
    ensures !ValidIp(" 1.2.3.4")
  {
    assert " 1.2.3.4" == " 1" + "." + "2" + "." + "3" + "." + "4";
    JoinFour(" 1", "2", "3", "4", ".");
    SplitJoin([" 1", "2", "3", "4"], '.');
  }

  /** A minus sign is refused. */
  lemma MinusSignRejected(ip: string)
    requires ip == "1.2.3.-4"
    ensures !ValidIp(ip)
  {
    assert ParseU8("-4").None?;
    assert ip == "1" + "." + "2" + "." + "3" + "." + "-4";
    JoinFour("1", "2", "3", "-4", ".");
    SplitJoin(["1", "2", "3", "-4"], '.');
  }

  /** Every character of a valid address is a digit, a '+' or a dot. */
  lemma ValidIpCharacters(ip: string)
    requires ValidIp(ip)
    ensures forall k :: 0 <= k < |ip| ==> IsDigit(ip[k]) || ip[k] == '+' || ip[k] == '.'
  {
    OctetsOfValidIp(ip);
    var p := Split(ip, '.');
    AcceptedPartCharacters(p[0]);
    AcceptedPartCharacters(p[1]);
    AcceptedPartCharacters(p[2]);
    AcceptedPartCharacters(p[3]);
    DottedCharacters(p[0], p[1], p[2], p[3]);
  }

  /** Every character of a part that `u8` parsing accepts is a digit or '+'. */
  lemma AcceptedPartCharacters(t: string)
    requires ParseU8(t).Some?
    ensures forall ch :: ch in t ==> IsDigit(ch) || ch == '+'
  {
    forall ch | ch in t ensures IsDigit(ch) || ch == '+' {
      var i :| 0 <= i < |t| && t[i] == ch;
    }
  }

  /** Four parts of digits and '+' joined by dots hold nothing but digits, '+' and '.'. */
  lemma DottedCharacters(a: string, b: string, c: string, d: string)
    requires forall ch :: ch in a ==> IsDigit(ch) || ch == '+'
    requires forall ch :: ch in b ==> IsDigit(ch) || ch == '+'
    requires forall ch :: ch in c ==> IsDigit(ch) || ch == '+'
    requires forall ch :: ch in d ==> IsDigit(ch) || ch == '+'
    ensures var ip := a + "." + b + "." + c + "." + d;
      forall k :: 0 <= k < |ip| ==> IsDigit(ip[k]) || ip[k] == '+' || ip[k] == '.'
  {
    var ip := a + "." + b + "." + c + "." + d;
    forall k | 0 <= k < |ip| ensures IsDigit(ip[k]) || ip[k] == '+' || ip[k] == '.' {
      assert ip[k] in ip;
    }
  }

  /**
   * The address check of the add path, `!p.trim().is_empty() && is_valid_ip(p)`,
   * is plain validity, and a valid address is stored unchanged by its trim.
   */
  lemma AddPathAddressCheck(p: string)
    ensures (Trim(p) != [] && ValidIp(p)) == ValidIp(p)
    ensures ValidIp(p) ==> Trim(p) == p && p != []
  {
    if ValidIp(p) {
      ValidIpCharacters(p);
      forall k | 0 <= k < |p| ensures !IsWhitespace(p[k]) {
      }
      TrimWithoutWhitespace(p);
    }
  }

  /** The flag `render_ip_input` returns: the field is empty or holds a valid address. */
  function IpInputAccepted(ip: string): (ok: bool)
    ensures ok <==> ip == [] || ValidIp(ip)
  {
    ip == [] || ValidIp(ip)
  }

  /** For a non-empty field the input flag agrees with the check the add path applies. */
  lemma IpInputAgreesWithAddPath(ip: string)
    requires ip != []
    ensures IpInputAccepted(ip) <==> (Trim(ip) != [] && ValidIp(ip))
  {
    AddPathAddressCheck(ip);
  }

  lemma ParseOneDigit(x: char)
    requires IsDigit(x)
    ensures ParseU8([x]).Some?
  {
    assert [x][..0] == [];
    assert DigitsValue([x]) == x as int - '0' as int;
  }

  lemma ParseTwoDigits(x: char, y: char)
    requires IsDigit(x) && IsDigit(y)
    ensures ParseU8([x, y]).Some?
  {
    assert [x, y][..1] == [x];
    assert [x][..0] == [];
    assert DigitsValue([x]) == x as int - '0' as int;
    assert DigitsValue([x, y]) == (x as int - '0' as int) * 10 + (y as int - '0' as int);
  }

  lemma ParseThreeDigits(x: char, y: char, z: char)
    requires IsDigit(x) && IsDigit(y) && IsDigit(z) && (x as int - '0' as int) * 100 + (y as int - '0' as int) * 10 + (z as int - '0' as int) <= 255
    ensures ParseU8([x, y, z]).Some?
  {
    assert [x, y, z][..2] == [x, y];
    assert [x, y][..1] == [x];
    assert [x][..0] == [];
    assert DigitsValue([x]) == x as int - '0' as int;
    assert DigitsValue([x, y]) == (x as int - '0' as int) * 10 + (y as int - '0' as int);
    assert DigitsValue([x, y, z]) == (x as int - '0' as int) * 100 + (y as int - '0' as int) * 10 + (z as int - '0' as int);
  }

  /** A dotted quad whose four parts are accepted is valid, whatever spelling it arrived in. */
  lemma DottedQuadValid(ip: string, a: string, b: string, c: string, d: string)
    requires ip == a + "." + b + "." + c + "." + d
    requires ParseU8(a).Some? && ParseU8(b).Some? && ParseU8(c).Some? && ParseU8(d).Some?
    ensures ValidIp(ip)
  {
    ValidIpOfOctets(a, b, c, d);
  }

  lemma ElectroPrimaryValid(ip: string)
    requires ip == "78.157.42.100"
    ensures ValidIp(ip)
  {
    ParseTwoDigits('7', '8'); ParseThreeDigits('1', '5', '7'); ParseTwoDigits('4', '2'); ParseThreeDigits('1', '0', '0');
    assert ip == "78" + "." + "157" + "." + "42" + "." + "100";
    DottedQuadValid(ip, "78", "157", "42", "100");
  }

  lemma ElectroSecondaryValid(ip: string)
    requires ip == "78.157.42.101"
    ensures ValidIp(ip)
  {
    ParseTwoDigits('7', '8'); ParseThreeDigits('1', '5', '7'); ParseTwoDigits('4', '2'); ParseThreeDigits('1', '0', '1');
    assert ip == "78" + "." + "157" + "." + "42" + "." + "101";
    DottedQuadValid(ip, "78", "157", "42", "101");
  }

  /** Both addresses of Electro pass validation. */
  lemma ElectroAddressesValid()
    ensures ValidIp(GetServers(ElectroDns()).0) && ValidIp(GetServers(ElectroDns()).1)
  {
    ElectroPrimaryValid(GetServers(ElectroDns()).0);
    ElectroSecondaryValid(GetServers(ElectroDns()).1);
  }

  lemma RadarPrimaryValid(ip: string)
    requires ip == "10.202.10.10"
    ensures ValidIp(ip)
  {
    ParseTwoDigits('1', '0'); ParseThreeDigits('2', '0', '2');
    assert ip == "10" + "." + "202" + "." + "10" + "." + "10";
    DottedQuadValid(ip, "10", "202", "10", "10");
  }

  lemma RadarSecondaryValid(ip: string)
    requires ip == "10.202.10.11"
    ensures ValidIp(ip)
  {
    ParseTwoDigits('1', '0'); ParseThreeDigits('2', '0', '2'); ParseTwoDigits('1', '1');
    assert ip == "10" + "." + "202" + "." + "10" + "." + "11";
    DottedQuadValid(ip, "10", "202", "10", "11");
  }

  /** Both addresses of Radar pass validation. */
  lemma RadarAddressesValid()
    ensures ValidIp(GetServers(RadarDns()).0) && ValidIp(GetServers(RadarDns()).1)
  {
    RadarPrimaryValid(GetServers(RadarDns()).0);
    RadarSecondaryValid(GetServers(RadarDns()).1);
  }

  lemma ShekanPrimaryValid(ip: string)
    requires ip == "178.22.122.100"
    ensures ValidIp(ip)
  {
    ParseThreeDigits('1', '7', '8'); ParseTwoDigits('2', '2'); ParseThreeDigits('1', '2', '2'); ParseThreeDigits('1', '0', '0');
    assert ip == "178" + "." + "22" + "." + "122" + "." + "100";
    DottedQuadValid(ip, "178", "22", "122", "100");
  }

  lemma ShekanSecondaryValid(ip: string)
    requires ip == "185.51.200.2"
    ensures ValidIp(ip)
  {
    ParseThreeDigits('1', '8', '5'); ParseTwoDigits('5', '1'); ParseThreeDigits('2', '0', '0'); ParseOneDigit('2');
    assert ip == "185" + "." + "51" + "." + "200" + "." + "2";
    DottedQuadValid(ip, "185", "51", "200", "2");
  }

  /** Both addresses of Shekan pass validation. */
  lemma ShekanAddressesValid()
    ensures ValidIp(GetServers(ShekanDns()).0) && ValidIp(GetServers(ShekanDns()).1)
  {
    ShekanPrimaryValid(GetServers(ShekanDns()).0);
    ShekanSecondaryValid(GetServers(ShekanDns()).1);
  }

  lemma BogzarPrimaryValid(ip: string)
    requires ip == "185.55.226.26"
    ensures ValidIp(ip)
  {
    ParseThreeDigits('1', '8', '5'); ParseTwoDigits('5', '5'); ParseThreeDigits('2', '2', '6'); ParseTwoDigits('2', '6');
    assert ip == "185" + "." + "55" + "." + "226" + "." + "26";
    DottedQuadValid(ip, "185", "55", "226", "26");
  }

  lemma BogzarSecondaryValid(ip: string)
    requires ip == "185.55.225.25"
    ensures ValidIp(ip)
  {
    ParseThreeDigits('1', '8', '5'); ParseTwoDigits('5', '5'); ParseThreeDigits('2', '2', '5'); ParseTwoDigits('2', '5');
    assert ip == "185" + "." + "55" + "." + "225" + "." + "25";
    DottedQuadValid(ip, "185", "55", "225", "25");
  }

  /** Both addresses of Bogzar pass validation. */
  lemma BogzarAddressesValid()
    ensures ValidIp(GetServers(BogzarDns()).0) && ValidIp(GetServers(BogzarDns()).1)
  {
    BogzarPrimaryValid(GetServers(BogzarDns()).0);
    BogzarSecondaryValid(GetServers(BogzarDns()).1);
  }

  lemma Quad9PrimaryValid(ip: string)
    requires ip == "9.9.9.9"
    ensures ValidIp(ip)
  {
    ParseOneDigit('9');
    assert ip == "9" + "." + "9" + "." + "9" + "." + "9";
    DottedQuadValid(ip, "9", "9", "9", "9");
  }

  lemma Quad9SecondaryValid(ip: string)
    requires ip == "149.112.112.112"
    ensures ValidIp(ip)
  {
    ParseThreeDigits('1', '4', '9'); ParseThreeDigits('1', '1', '2');
    assert ip == "149" + "." + "112" + "." + "112" + "." + "112";
    DottedQuadValid(ip, "149", "112", "112", "112");
  }

  /** Both addresses of Quad9 pass validation. */
  lemma Quad9AddressesValid()
    ensures ValidIp(GetServers(Quad9Dns()).0) && ValidIp(GetServers(Quad9Dns()).1)
  {
    Quad9PrimaryValid(GetServers(Quad9Dns()).0);
    Quad9SecondaryValid(GetServers(Quad9Dns()).1);
  }

  // ---------------------------------------------------------------------------
  // Provider selection
  // ---------------------------------------------------------------------------

  /** One row of the provider list: the text it shows and the provider it stands for. */
  datatype Item = Item(text: string, provider: DnsProvider)

  /** The last row, which opens the "add new entry" window instead of selecting. */
  const AddNewLabel: string := "+"

  function AddNewItem(): (it: Item)
    ensures it.text == AddNewLabel && it.provider.Custom? && GetServers(it.provider) == ("", "")
  {
    Item(AddNewLabel, CustomDns("", ""))
  }

  /** The five fixed providers in their fixed order, then Custom with the typed addresses. */
  function FixedItems(customPrimary: string, customSecondary: string): (items: seq<Item>)
    ensures |items| == 6
    ensures forall i :: 0 <= i < 6 ==>
      items[i].text == DisplayName(items[i].provider) && !items[i].provider.Saved?
      && TagPosition(Tag(items[i].provider)) == i
    ensures GetServers(items[5].provider) == (customPrimary, customSecondary)
  {
    [Item("Electro", ElectroDns()), Item("Radar", RadarDns()), Item("Shekan", ShekanDns()),
     Item("Bogzar", BogzarDns()), Item("Quad9", Quad9Dns()),
     Item("Custom", CustomDns(customPrimary, customSecondary))]
  }

  function SavedItem(e: SavedDnsEntry): Item {
    Item(e.name, EntryProvider(e))
  }

  /** The rows of the provider list, in the order they are shown. */
  function ProviderList(customPrimary: string, customSecondary: string, saved: seq<SavedDnsEntry>): (items: seq<Item>)
    ensures |items| == 7 + |saved|
    ensures items[..5] == [Item("Electro", ElectroDns()), Item("Radar", RadarDns()), Item("Shekan", ShekanDns()),
                           Item("Bogzar", BogzarDns()), Item("Quad9", Quad9Dns())]
    ensures items[5] == Item("Custom", CustomDns(customPrimary, customSecondary))
    ensures forall k :: 0 <= k < |saved| ==> items[6 + k] == SavedItem(saved[k])
    ensures items[|items| - 1] == AddNewItem()
    ensures forall i :: 0 <= i < |items| - 1 ==> items[i].text == DisplayName(items[i].provider)
  {
    FixedItems(customPrimary, customSecondary)
    + seq(|saved|, k requires 0 <= k < |saved| => SavedItem(saved[k]))
    + [AddNewItem()]
  }

  /** The list is built by pushing one row per saved entry after the fixed rows. */
  method BuildProviderList(customPrimary: string, customSecondary: string, saved: seq<SavedDnsEntry>)
    returns (items: seq<Item>)
    ensures items == ProviderList(customPrimary, customSecondary, saved)
  {
    items := FixedItems(customPrimary, customSecondary);
    for k := 0 to |saved|
      invariant |items| == 6 + k
      invariant items[..6] == FixedItems(customPrimary, customSecondary)
      invariant forall j :: 0 <= j < k ==> items[6 + j] == SavedItem(saved[j])
    {
      items := items + [SavedItem(saved[k])];
    }
    items := items + [AddNewItem()];
  }

  /**
   * Whether a row stands for the current selection: two Saved providers
   * match by name, any other pair by variant alone.
   */
  predicate Matches(p: DnsProvider, selected: DnsProvider)
    ensures Matches(p, selected) ==> Tag(p) == Tag(selected)
    ensures p.Custom? && selected.Custom? ==> Matches(p, selected)
    ensures p.Saved? && selected.Saved? ==> (Matches(p, selected) <==> p.name == selected.name)
  {
    if p.Saved? && selected.Saved? then p.name == selected.name else Tag(p) == Tag(selected)
  }

  /** The position of the first matching row, or `|items|` when no row matches. */
  function FirstMatch(items: seq<Item>, selected: DnsProvider): (k: nat)
    ensures k <= |items|
    ensures k < |items| ==> Matches(items[k].provider, selected)
    ensures forall j :: 0 <= j < k ==> !Matches(items[j].provider, selected)
  {
    if items == [] then 0
    else if Matches(items[0].provider, selected) then 0
    else 1 + FirstMatch(items[1..], selected)
  }

  /** The row the combo box shows as selected: the first match, falling back to row 0. */
  function SelectedIndex(items: seq<Item>, selected: DnsProvider): (i: nat)
    ensures items != [] ==> i < |items|
    ensures (exists j :: 0 <= j < |items| && Matches(items[j].provider, selected)) ==>
      Matches(items[i].provider, selected) && forall j :: 0 <= j < i ==> !Matches(items[j].provider, selected)
    ensures (forall j :: 0 <= j < |items| ==> !Matches(items[j].provider, selected)) ==> i == 0
  {
    var k := FirstMatch(items, selected);
    if k < |items| then k else 0
  }

  /** The search for the selected row (`position` followed by `unwrap_or(0)`). */
  method CurrentIndex(items: seq<Item>, selected: DnsProvider) returns (index: nat)
    ensures index == SelectedIndex(items, selected)
  {
    var k := 0;
    while k < |items| && !Matches(items[k].provider, selected)
      invariant k <= |items|
      invariant forall j :: 0 <= j < k ==> !Matches(items[j].provider, selected)
    {
      k := k + 1;
    }
    index := if k < |items| then k else 0;
  }

  /** The row of each variant other than Saved. */
  function TagPosition(t: ProviderTag): nat {
    match t
    case ElectroTag => 0
    case RadarTag => 1
    case ShekanTag => 2
    case BogzarTag => 3
    case Quad9Tag => 4
    case CustomTag => 5
    case SavedTag => 0
  }

  /**
   * A selection other than Saved is shown at the row of its variant; in
   * particular every Custom selection, whatever its addresses, is row 5.
   */
  lemma SelectedIndexOfFixed(cp: string, cs: string, saved: seq<SavedDnsEntry>, selected: DnsProvider)
    requires !selected.Saved?
    ensures SelectedIndex(ProviderList(cp, cs, saved), selected) == TagPosition(Tag(selected))
  {
    var items := ProviderList(cp, cs, saved);
    assert items[..6] == FixedItems(cp, cs);
    var p := TagPosition(Tag(selected));
    assert items[p] == FixedItems(cp, cs)[p];
    assert Matches(items[p].provider, selected);
    forall j | 0 <= j < p ensures !Matches(items[j].provider, selected) {
      assert items[j] == FixedItems(cp, cs)[j];
    }
  }

  /**
   * A Saved selection is shown at the row of the first saved entry with its
   * name; when no entry has that name the combo box falls back to row 0.
   */
  lemma SelectedIndexOfSaved(cp: string, cs: string, saved: seq<SavedDnsEntry>, selected: DnsProvider)
    requires selected.Saved?
    ensures var i := SelectedIndex(ProviderList(cp, cs, saved), selected);
      && ((exists k :: 0 <= k < |saved| && saved[k].name == selected.name) ==>
            6 <= i < 6 + |saved| && saved[i - 6].name == selected.name
            && forall j :: 0 <= j < i - 6 ==> saved[j].name != selected.name)
      && ((forall k :: 0 <= k < |saved| ==> saved[k].name != selected.name) ==> i == 0)
  {
    var items := ProviderList(cp, cs, saved);
    assert items[..6] == FixedItems(cp, cs);
    forall j | 0 <= j < 6 ensures !Matches(items[j].provider, selected) {
      assert items[j] == FixedItems(cp, cs)[j];
    }
    forall k | 0 <= k < |saved| ensures Matches(items[6 + k].provider, selected) <==> saved[k].name == selected.name {
      assert items[6 + k] == SavedItem(saved[k]);
    }
    var i := SelectedIndex(items, selected);
    if exists k :: 0 <= k < |saved| && saved[k].name == selected.name {
      var k :| 0 <= k < |saved| && saved[k].name == selected.name;
      assert Matches(items[6 + k].provider, selected);
      forall j | 0 <= j < i - 6 ensures saved[j].name != selected.name {
        assert !Matches(items[6 + j].provider, selected);
      }
    } else {
      forall j | 0 <= j < |items| ensures !Matches(items[j].provider, selected) {
        if 6 <= j < 6 + |saved| {
          assert items[j] == SavedItem(saved[j - 6]);
        }
      }
    }
  }

  /** Whether a row is drawn highlighted for the current selection. */
  predicate Highlighted(item: Item, selected: DnsProvider)
    ensures item.text == AddNewLabel ==> !Highlighted(item, selected)
    ensures item.text == "Custom" && selected.Custom? ==> Highlighted(item, selected)
    ensures item.text != AddNewLabel && selected.Saved? ==> (Highlighted(item, selected) <==> item.text == selected.name)
  {
    item.text != AddNewLabel &&
    if item.text == "Custom" && selected.Custom? then true
    else if selected.Saved? then item.text == selected.name
    else Tag(item.provider) == Tag(selected)
  }

  /**
   * Highlighting and the combo box's selected row pick out the same row
   * whenever labels cannot be confused: no saved entry is called "Custom",
   * and a Saved selection names exactly one saved entry and no fixed provider.
   */
  lemma HighlightAgreesWithIndex(cp: string, cs: string, saved: seq<SavedDnsEntry>, selected: DnsProvider, i: nat)
    requires i < 6 + |saved|
    requires forall k :: 0 <= k < |saved| ==> saved[k].name != "Custom"
    requires selected.Saved? ==>
      && selected.name !in {"Electro", "Radar", "Shekan", "Bogzar", "Quad9", "Custom", AddNewLabel}
      && (exists k :: 0 <= k < |saved| && saved[k].name == selected.name)
      && (forall j, k :: 0 <= j < k < |saved| && saved[j].name == selected.name ==> saved[k].name != selected.name)
    ensures var items := ProviderList(cp, cs, saved);
      Highlighted(items[i], selected) <==> i == SelectedIndex(items, selected)
  {
    var items := ProviderList(cp, cs, saved);
    assert items[..6] == FixedItems(cp, cs);
    if i < 6 {
      assert items[i] == FixedItems(cp, cs)[i];
    } else {
      assert items[i] == SavedItem(saved[i - 6]);
    }
    if selected.Saved? {
      SelectedIndexOfSaved(cp, cs, saved, selected);
    } else {
      SelectedIndexOfFixed(cp, cs, saved, selected);
    }
  }

  // ---------------------------------------------------------------------------
  // Clicks on the list
  // ---------------------------------------------------------------------------

  /** The callbacks `render_provider_selection` invokes, in invocation order. */
  datatype UiEvent = ProviderChanged(provider: DnsProvider) | CustomSelected | AddNew

  /** Clicking a selectable row: the provider change, then, for Custom, the custom window. */
  function RowEvents(p: DnsProvider): (events: seq<UiEvent>)
    ensures |events| == (if p.Custom? then 2 else 1) && events[0] == ProviderChanged(p)
    ensures CustomSelected in events <==> p.Custom?
    ensures AddNew !in events
  {
    [ProviderChanged(p)] + (if p.Custom? then [CustomSelected] else [])
  }

  /** Click handling as written: the add row is recognised by its label "+". */
  function ClickEventsAsWritten(item: Item): (events: seq<UiEvent>)
    ensures AddNew in events <==> item.text == AddNewLabel
    ensures item.text != AddNewLabel ==> |events| >= 1 && events[0] == ProviderChanged(item.provider)
  {
    if item.text == AddNewLabel then [AddNew] else RowEvents(item.provider)
  }

  /** Click handling with the add row recognised by its position, the last row. */
  function ClickEvents(items: seq<Item>, i: nat): (events: seq<UiEvent>)
    requires i < |items|
    ensures AddNew in events <==> i == |items| - 1
    ensures i < |items| - 1 ==> |events| >= 1 && events[0] == ProviderChanged(items[i].provider)
  {
    if i == |items| - 1 then [AddNew] else RowEvents(items[i].provider)
  }

  /**
   * Clicking the add row only asks for the add window; clicking Custom changes
   * the provider and then opens the custom window; clicking any other row
   * (a saved entry included) just selects that row's provider.
   */
  lemma ClickOnProviderList(cp: string, cs: string, saved: seq<SavedDnsEntry>, i: nat)
    requires i < 7 + |saved|
    ensures var items := ProviderList(cp, cs, saved);
      && (i == 6 + |saved| ==> ClickEvents(items, i) == [AddNew])
      && (i == 5 ==> ClickEvents(items, i) == [ProviderChanged(CustomDns(cp, cs)), CustomSelected])
      && (6 <= i < 6 + |saved| ==> ClickEvents(items, i) == [ProviderChanged(EntryProvider(saved[i - 6]))])
      && (i < 5 ==> ClickEvents(items, i) == [ProviderChanged(items[i].provider)] && !items[i].provider.Custom?)
  {
    var items := ProviderList(cp, cs, saved);
    assert items[..6] == FixedItems(cp, cs);
    if i < 6 {
      assert items[i] == FixedItems(cp, cs)[i];
    }
  }

  /** When no saved entry is called "+", the two click rules agree on every row. */
  lemma ClickRulesAgree(cp: string, cs: string, saved: seq<SavedDnsEntry>, i: nat)
    requires i < 7 + |saved|
    requires forall k :: 0 <= k < |saved| ==> saved[k].name != AddNewLabel
    ensures var items := ProviderList(cp, cs, saved);
      ClickEvents(items, i) == ClickEventsAsWritten(items[i])
  {
    var items := ProviderList(cp, cs, saved);
    assert items[..6] == FixedItems(cp, cs);
    if i < 6 {
      assert items[i] == FixedItems(cp, cs)[i];
    }
  }

  /**
   * As written, a saved entry named "+" cannot be selected from the list:
   * clicking its row asks for the add window instead.
   */
  lemma PlusNamedEntryOpensAddWindow()
    ensures var saved := [SavedDnsEntry("+", "1.1.1.1", "1.0.0.1")];
      var items := ProviderList("", "", saved);
      && ClickEventsAsWritten(items[6]) == [AddNew]
      && ClickEvents(items, 6) == [ProviderChanged(SavedDns("+", "1.1.1.1", "1.0.0.1"))]
  {
  }
}
