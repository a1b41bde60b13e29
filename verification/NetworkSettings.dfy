/** The checks the sandbox network settings pass before they are used. */
module NetworkSettings {
  import opened Cidr

  datatype Result<+T, +E> = Ok(value: T) | Err(error: E)

  /** The parts of a CIDR text around its first slash, each parsed or not. */
  datatype CidrText = NoSlash | Parts(address: Option<Word>, prefix: Option<nat>)

  /** The configured values, addresses being the outcome of parsing their text. */
  datatype Config = Config(
    bridge: string, subnet: CidrText, gateway: Option<Word>, address: Option<Word>, dns: seq<Option<Word>>)

  datatype Settings = Settings(bridge: string, subnet: Cidr, gateway: Word, address: Word, dns: seq<Word>)

  datatype Fault =
    | BadBridge | SubnetNotCidr | SubnetAddress | SubnetPrefix | PrefixTooLong | SubnetNotNetwork
    | BadGateway | BadAddress | GatewayOutside | AddressOutside | SameAddress
    | GatewayReserved | AddressReserved | BadDns(index: nat)

  /** White space as Unicode defines it. */
  predicate IsWhitespace(c: char) {
    var n := c as int;
    || 0x9 <= n <= 0xD || n == 0x20 || n == 0x85 || n == 0xA0 || n == 0x1680
    || 0x2000 <= n <= 0x200A || n == 0x2028 || n == 0x2029 || n == 0x202F || n == 0x205F || n == 0x3000
  }

  /** Bytes of a character in UTF-8. */
  function Utf8Width(c: char): nat {
    var n := c as int;
    if n < 0x80 then 1 else if n < 0x800 then 2 else if n < 0x1_0000 then 3 else 4
  }

  function ByteLength(text: string): nat {
    if text == "" then 0 else Utf8Width(text[0]) + ByteLength(text[1..])
  }

  predicate GoodBridge(name: string) {
    && 0 < ByteLength(name) <= 15
    && forall i :: 0 <= i < |name| ==> !IsWhitespace(name[i]) && name[i] != '/'
  }

  lemma {:induction false} LengthAppend(text: string, c: char)
    ensures ByteLength(text + [c]) == ByteLength(text) + Utf8Width(c)
  {
    if text == "" {
      assert [c][1..] == "";
    } else {
      assert (text + [c])[1..] == text[1..] + [c];
      LengthAppend(text[1..], c);
    }
  }

  /** A non-empty name of at most 15 bytes, none of its characters white space or a
      slash. */
  method CheckBridge(name: string) returns (ok: bool)
    ensures ok <==> GoodBridge(name)
  {
    var length, clean := 0, true;
    for i := 0 to |name|
      invariant length == ByteLength(name[..i])
      invariant clean <==> forall j :: 0 <= j < i ==> !IsWhitespace(name[j]) && name[j] != '/'
    {
      assert name[..i + 1] == name[..i] + [name[i]];
      LengthAppend(name[..i], name[i]);
      length := length + Utf8Width(name[i]);
      if IsWhitespace(name[i]) || name[i] == '/' {
        clean := false;
      }
    }
    assert name[..|name|] == name;
    ok := length > 0 && length <= 15 && clean;
  }

  method ParseCidr(text: CidrText) returns (r: Result<Cidr, Fault>)
    ensures r.Ok? <==> text.Parts? && text.address.Some? && text.prefix.Some? && text.prefix.value <= 32
    ensures r.Ok? ==> r.value == Cidr(text.address.value, text.prefix.value) && r.value.Valid()
    ensures r.Err? ==>
              && (r.error == SubnetNotCidr <==> text.NoSlash?)
              && (r.error == SubnetAddress <==> text.Parts? && text.address.None?)
              && (r.error == SubnetPrefix <==> text.Parts? && text.address.Some? && text.prefix.None?)
              && r.error in [SubnetNotCidr, SubnetAddress, SubnetPrefix, PrefixTooLong]
  {
    if text.NoSlash? { return Err(SubnetNotCidr); }
    if text.address.None? { return Err(SubnetAddress); }
    if text.prefix.None? { return Err(SubnetPrefix); }
    if text.prefix.value > 32 { return Err(PrefixTooLong); }
    return Ok(Cidr(text.address.value, text.prefix.value));
  }

  // ----- what is acceptable, in terms of address intervals -----

  predicate SubnetOk(c: Config) {
    && c.subnet.Parts? && c.subnet.address.Some? && c.subnet.prefix.Some? && c.subnet.prefix.value <= 32
    && c.subnet.address.value % Size(c.subnet.prefix.value) == 0
  }

  /** A host address: in the interval, and for prefixes up to 30 neither end of it. */
  predicate IsHost(base: nat, prefix: nat, a: Word)
    requires prefix <= 32
  {
    if prefix <= 30 then base < a < base + Size(prefix) - 1 else base <= a < base + Size(prefix)
  }

  predicate Acceptable(c: Config) {
    && GoodBridge(c.bridge)
    && SubnetOk(c)
    && c.gateway.Some? && c.address.Some? && c.gateway != c.address
    && IsHost(c.subnet.address.value, c.subnet.prefix.value, c.gateway.value)
    && IsHost(c.subnet.address.value, c.subnet.prefix.value, c.address.value)
    && forall i :: 0 <= i < |c.dns| ==> c.dns[i].Some?
  }

  lemma AlignedIsNetwork(c: Cidr)
    requires c.Valid()
    ensures c.address == c.Network() <==> c.address % Size(c.prefix) == 0
  {
    ContainsIsInterval(c, c.address);
  }

  /** The resolvers, in order, up to the first that does not parse. */
  method ParseDns(dns: seq<Option<Word>>) returns (r: Result<seq<Word>, Fault>)
    ensures r.Ok? <==> forall i :: 0 <= i < |dns| ==> dns[i].Some?
    ensures r.Ok? ==> |r.value| == |dns| && forall i :: 0 <= i < |dns| ==> dns[i] == Some(r.value[i])
    ensures r.Err? ==> r.error.BadDns? && r.error.index < |dns| && dns[r.error.index].None? &&
                       forall i :: 0 <= i < r.error.index ==> dns[i].Some?
  {
    var parsed: seq<Word> := [];
    for i := 0 to |dns|
      invariant |parsed| == i && forall j :: 0 <= j < i ==> dns[j] == Some(parsed[j])
    {
      if dns[i].None? { return Err(BadDns(i)); }
      parsed := parsed + [dns[i].value];
    }
    return Ok(parsed);
  }

  method CheckHost(subnet: Cidr, gateway: Word, address: Word) returns (fault: Option<Fault>)
    requires subnet.Valid() && subnet.address == subnet.Network()
    ensures fault.None? <==>
            && gateway != address
            && IsHost(subnet.address, subnet.prefix, gateway) && IsHost(subnet.address, subnet.prefix, address)
    ensures fault == Some(GatewayOutside) <==> !subnet.Contains(gateway)
    ensures fault == Some(AddressOutside) <==> subnet.Contains(gateway) && !subnet.Contains(address)
    ensures fault == Some(SameAddress) <==> subnet.Contains(gateway) && gateway == address
    ensures fault.None? || fault.value in
            [GatewayOutside, AddressOutside, SameAddress, GatewayReserved, AddressReserved]
    ensures fault == Some(GatewayReserved) ==> !IsHost(subnet.address, subnet.prefix, gateway)
    ensures fault == Some(AddressReserved) ==>
              IsHost(subnet.address, subnet.prefix, gateway) && !IsHost(subnet.address, subnet.prefix, address)
  {
    ContainsIsInterval(subnet, gateway);
    ContainsIsInterval(subnet, address);
    if !subnet.Contains(gateway) { return Some(GatewayOutside); }
    if !subnet.Contains(address) { return Some(AddressOutside); }
    if gateway == address { return Some(SameAddress); }
    if subnet.prefix <= 30 {
      var broadcast := subnet.Broadcast();
      if gateway == subnet.Network() || gateway == broadcast { return Some(GatewayReserved); }
      if address == subnet.Network() || address == broadcast { return Some(AddressReserved); }
    }
    return None;
  }

  /** `network_settings`: accepts exactly the acceptable configurations and returns
      their values. */
  method Check(c: Config) returns (r: Result<Settings, Fault>)
    ensures r.Ok? <==> Acceptable(c)
    ensures r.Ok? ==>
              && r.value.bridge == c.bridge
              && r.value.subnet == Cidr(c.subnet.address.value, c.subnet.prefix.value)
              && Some(r.value.gateway) == c.gateway && Some(r.value.address) == c.address
              && |r.value.dns| == |c.dns| && forall i :: 0 <= i < |c.dns| ==> c.dns[i] == Some(r.value.dns[i])
    ensures r.Err? && r.error.BadBridge? <==> !GoodBridge(c.bridge)
    ensures r.Err? && r.error.BadDns? ==> r.error.index < |c.dns| && c.dns[r.error.index].None?
  {
    var bridgeOk := CheckBridge(c.bridge);
    if !bridgeOk { return Err(BadBridge); }
    var parsed := ParseCidr(c.subnet);
    if parsed.Err? { return Err(parsed.error); }
    var subnet := parsed.value;
    AlignedIsNetwork(subnet);
    if subnet.address != subnet.Network() { return Err(SubnetNotNetwork); }
    if c.gateway.None? { return Err(BadGateway); }
    if c.address.None? { return Err(BadAddress); }
    var fault := CheckHost(subnet, c.gateway.value, c.address.value);
    if fault.Some? { return Err(fault.value); }
    var dns := ParseDns(c.dns);
    if dns.Err? { return Err(dns.error); }
    return Ok(Settings(c.bridge, subnet, c.gateway.value, c.address.value, dns.value));
  }

  lemma SmallSizes()
    ensures Size(32) == 1 && Size(31) == 2 && Size(30) == 4
  {
  }

  /** Accepted settings never use a /32, keep gateway and sandbox apart, and both are
      matched by the rules the packet filter gets for the subnet. */
  lemma AcceptedSettings(c: Config)
    requires Acceptable(c)
    ensures c.subnet.prefix.value <= 31 && c.gateway.value != c.address.value
    ensures var subnet := Cidr(c.subnet.address.value, c.subnet.prefix.value);
            && subnet.Contains(c.gateway.value) && subnet.Contains(c.address.value)
            && subnet.Mask() < Bits.WORD
            && forall a: Word :: RuleMatches(Octets(a), Octets(subnet.Mask()), Octets(subnet.address)) <==>
                 c.subnet.address.value <= a < c.subnet.address.value + Size(subnet.prefix)
  {
    SmallSizes();
    var subnet := Cidr(c.subnet.address.value, c.subnet.prefix.value);
    AlignedIsNetwork(subnet);
    ContainsIsInterval(subnet, c.gateway.value);
    ContainsIsInterval(subnet, c.address.value);
    MaskIsOnes(subnet.prefix);
    forall a: Word
      ensures RuleMatches(Octets(a), Octets(subnet.Mask()), Octets(subnet.address)) <==>
              c.subnet.address.value <= a < c.subnet.address.value + Size(subnet.prefix)
    {
      RuleMatchesSubnet(subnet, a);
      ContainsIsInterval(subnet, a);
    }
  }
}
