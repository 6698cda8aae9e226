/** The input shaping the exporter's entry point does before it hands off to
    the appliance client and the collector: the partition allow-list, the
    `host:port` strings for the appliance and for the listener, and the
    authentication method. */
module Exporter {
  import opened Wrappers
  import Strings
  import Decimal
  import Config

  /** Separates partition names in the configured list. */
  const PartitionSeparator: char := ','

  /** Separates host and port in an address. */
  const PortSeparator: char := ':'

  /** How the appliance client authenticates. */
  datatype AuthMethod = Token | BasicAuth

  /** The partition allow-list: None (no allow-list, export every partition)
      for an empty setting, otherwise the setting split at every comma,
      empty and space-padded pieces included. */
  function ParsePartitions(partitions: string): (r: Option<seq<string>>)
    ensures r.None? <==> partitions == ""
    ensures r.Some? ==> |r.value| == Strings.Count(partitions, PartitionSeparator) + 1
    ensures r.Some? ==> Strings.Join(r.value, PartitionSeparator) == partitions
    ensures r.Some? ==> forall i :: 0 <= i < |r.value| ==> PartitionSeparator !in r.value[i]
  {
    if partitions == "" then None
    else
      Strings.JoinSplit(partitions, PartitionSeparator);
      Strings.SplitCount(partitions, PartitionSeparator);
      Some(Strings.Split(partitions, PartitionSeparator))
  }

  /** Any non-empty list of comma-free names other than [""] is what its own
      comma-joined setting parses to, so the allow-list is determined by the
      setting and vice versa. */
  lemma ParsePartitionsOfJoin(names: seq<string>)
    requires |names| >= 1 && Strings.Join(names, PartitionSeparator) != ""
    requires forall i :: 0 <= i < |names| ==> PartitionSeparator !in names[i]
    ensures ParsePartitions(Strings.Join(names, PartitionSeparator)) == Some(names)
  {
    Strings.SplitJoin(names, PartitionSeparator);
  }

  /** The two comma-free lists that no setting yields: [] and [""], since
      an empty setting gives no allow-list at all. */
  lemma ParsePartitionsNeverBlank(partitions: string)
    ensures ParsePartitions(partitions) != Some([])
    ensures ParsePartitions(partitions) != Some([""])
  {
  }

  /** An empty setting means no allow-list; a single name is a one-element list. */
  lemma ParsePartitionsSingle()
    ensures ParsePartitions("") == None
    ensures ParsePartitions("Common") == Some(["Common"])
  {
  }

  /** Empty pieces are kept, not dropped. */
  lemma ParsePartitionsKeepsEmpty()
    ensures ParsePartitions("a,,b") == Some(["a", "", "b"])
    ensures ParsePartitions(",") == Some(["", ""])
  {
    assert Strings.Join(["a", "", "b"], PartitionSeparator) == "a,,b";
    ParsePartitionsOfJoin(["a", "", "b"]);
    assert Strings.Join(["", ""], PartitionSeparator) == ",";
    ParsePartitionsOfJoin(["", ""]);
  }

  /** Spaces around names are kept, not trimmed. */
  lemma ParsePartitionsKeepsSpaces()
    ensures ParsePartitions(" a , b") == Some([" a ", " b"])
  {
    assert Strings.Join([" a ", " b"], PartitionSeparator) == " a , b";
    ParsePartitionsOfJoin([" a ", " b"]);
  }

  /** `host + ":" + strconv.Itoa(port)`: the host unchanged, then a colon
      that is the last one in the address, then the port in decimal. Plain
      concatenation, unlike `net.JoinHostPort`: an IPv6 host is not
      bracketed. */
  function ConcatHostPort(host: string, port: int): (addr: string)
    ensures |addr| > |host| + 1
    ensures addr[..|host|] == host
    ensures addr[|host|] == PortSeparator
    ensures PortSeparator !in addr[|host| + 1..]
    ensures addr[|host| + 1..] == Decimal.Itoa(port)
    ensures Decimal.ParseInt(addr[|host| + 1..]) == Some(port)
  {
    var digits := Decimal.Itoa(port);
    Decimal.ItoaRoundTrip(port);
    var addr := host + [PortSeparator] + digits;
    assert addr[|host| + 1..] == digits;
    addr
  }

  /** Reads an address back at its last colon; None when there is no colon
      or the text after it is not a decimal integer. */
  function ReadHostPortAtLastColon(addr: string): Option<(string, int)>
  {
    match Strings.LastIndexOf(addr, PortSeparator)
    case None => None
    case Some(i) =>
      match Decimal.ParseInt(addr[i + 1..])
      case None => None
      case Some(port) => Some((addr[..i], port))
  }

  /** Splitting a joined address gives back its host and port, whatever the
      host contains (colons included). */
  lemma HostPortRoundTrip(host: string, port: int)
    ensures ReadHostPortAtLastColon(ConcatHostPort(host, port)) == Some((host, port))
  {
    var addr := ConcatHostPort(host, port);
    Strings.LastIndexOfAt(addr, PortSeparator, |host|);
  }

  /** The appliance endpoint (`bigipEndpoint`). */
  function BigipEndpoint(c: Config.BigipConfig): (addr: string)
    ensures addr == ConcatHostPort(c.host, c.port)
    ensures ReadHostPortAtLastColon(addr) == Some((c.host, c.port))
  {
    HostPortRoundTrip(c.host, c.port);
    ConcatHostPort(c.host, c.port)
  }

  /** The address the metrics listener binds (the server's `Addr`). */
  function ListenAddress(c: Config.ExporterConfig): (addr: string)
    ensures addr == ConcatHostPort(c.bindAddress, c.bindPort)
    ensures ReadHostPortAtLastColon(addr) == Some((c.bindAddress, c.bindPort))
  {
    HostPortRoundTrip(c.bindAddress, c.bindPort);
    ConcatHostPort(c.bindAddress, c.bindPort)
  }

  /** The default appliance and listener settings. */
  lemma AddressExamples()
    ensures ConcatHostPort("localhost", 443) == "localhost:443"
    ensures ConcatHostPort("localhost", 9142) == "localhost:9142"
  {
    assert Decimal.NatToString(4) == "4";
    assert Decimal.NatToString(44) == "44";
    assert Decimal.Itoa(443) == "443";
    assert Decimal.NatToString(9) == "9";
    assert Decimal.NatToString(91) == "91";
    assert Decimal.NatToString(914) == "914";
    assert Decimal.Itoa(9142) == "9142";
  }

  /** Basic authentication when the flag is set, token authentication
      otherwise. */
  function ChooseAuthMethod(basicAuth: bool): (m: AuthMethod)
    ensures m == BasicAuth <==> basicAuth
    ensures m == Token <==> !basicAuth
  {
    if basicAuth then BasicAuth else Token
  }

  /** What the entry point derives from the settings before starting the
      appliance client, the collector and the listener. */
  datatype Startup = Startup(
    endpoint: string,
    username: string,
    password: string,
    auth: AuthMethod,
    namespace: string,
    partitions: Option<seq<string>>,
    listenAddress: string)

  /** The startup values: each is derived from its own settings and no
      others, the credentials and namespace are passed through unchanged. */
  function PlanStartup(s: Config.Settings): (p: Startup)
    ensures p.endpoint == ConcatHostPort(s.bigip.host, s.bigip.port)
    ensures p.listenAddress == ConcatHostPort(s.exporter.bindAddress, s.exporter.bindPort)
    ensures ReadHostPortAtLastColon(p.endpoint) == Some((s.bigip.host, s.bigip.port))
    ensures ReadHostPortAtLastColon(p.listenAddress) == Some((s.exporter.bindAddress, s.exporter.bindPort))
    ensures p.username == s.bigip.username && p.password == s.bigip.password
    ensures p.namespace == s.exporter.namespace
    ensures p.auth == BasicAuth <==> s.bigip.basicAuth
    ensures p.partitions.None? <==> s.exporter.partitions == ""
    ensures p.partitions.Some? ==> Strings.Join(p.partitions.value, PartitionSeparator) == s.exporter.partitions
    ensures p.partitions.Some? ==> forall i :: 0 <= i < |p.partitions.value| ==> PartitionSeparator !in p.partitions.value[i]
  {
    Startup(
      BigipEndpoint(s.bigip),
      s.bigip.username,
      s.bigip.password,
      ChooseAuthMethod(s.bigip.basicAuth),
      s.exporter.namespace,
      ParsePartitions(s.exporter.partitions),
      ListenAddress(s.exporter))
  }
}
