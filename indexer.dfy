/**
 * The Bitcoin indexer's configuration and connection setup (src/burnchains/bitcoin/indexer.rs):
 * loading the `[bitcoin]` section of `bitcoin.ini` with defaults and port validation, mapping
 * a network name to its magic, and the indexer object whose `setup`, `connect` and
 * `reconnect_peer` overwrite its configuration, runtime and socket slot.
 */
module Indexer {
  import opened Wrappers
  import opened Text

  newtype u16 = x: int | 0 <= x < 0x1_0000
  newtype u32 = x: int | 0 <= x < 0x1_0000_0000
  newtype u64 = x: int | 0 <= x < 0x1_0000_0000_0000_0000

  const USER_AGENT: string := "Blockstack Core v21"

  const BITCOIN_MAINNET: u32 := 0xD9B4BEF9
  const BITCOIN_TESTNET: u32 := 0x0709110B
  const BITCOIN_REGTEST: u32 := 0xDAB5BFFA

  // The error texts of `from_file`, `connect` and `reconnect_peer`.
  const ErrNoFile: string := "Failed to load BitcoinIndexerConfig file: No such file or directory"
  const ErrUnparseable: string := "Failed to parse BitcoinConfigIndexer config file"
  const ErrNoSection: string := "No [bitcoin] section in config file"
  const ErrP2pPortValue: string := "Invalid bitcoin:p2p_port value"
  const ErrP2pPortRange: string := "Invalid p2p_port"
  const ErrRpcPortValue: string := "Invalid bitcoin:port value"
  const ErrRpcPortRange: string := "Invalid rpc_port"
  const ErrTimeoutValue: string := "Invalid bitcoin:timeout value"
  const ErrUnknownNetwork: string := "Unrecognized network name"
  const ErrPeerUnreachable: string := "Failed to connect to remote peer"

  /** `BitcoinIndexerConfig`. */
  datatype Config = Config(
    peerHost: string,
    peerPort: u16,
    rpcPort: u16,
    username: string,
    password: string,
    timeout: u32,
    spvHeadersPath: string)

  /** A port the loader accepts: strictly between 1024 and 65535. */
  predicate PortInRange(p: nat) { 1024 < p < 65535 }

  /** `PathBuf::push` of a relative component: a `/` goes in between unless the base is empty or already ends in one. */
  function PushPath(base: string, component: string): (r: string)
    ensures r == base + component || r == base + "/" + component
    ensures base != [] && base[|base| - 1] != '/' ==> r == base + "/" + component
    ensures base == [] || base[|base| - 1] == '/' ==> r == base + component
  {
    if base != [] && base[|base| - 1] != '/' then base + "/" + component else base + component
  }

  /**
   * `BitcoinIndexerConfig::default`, with the home directory passed in. Both ports pass the
   * loader's range check; `DefaultSpvPath` says where the headers file goes.
   */
  function DefaultConfig(home: string): (c: Config)
    ensures PortInRange(c.peerPort as nat) && PortInRange(c.rpcPort as nat) && c.peerPort != c.rpcPort
    ensures c.timeout == 30
  {
    Config(
      peerHost := "bitcoin.blockstack.com",
      peerPort := 8332,
      rpcPort := 8333,
      username := "blockstack",
      password := "blockstacksystem",
      timeout := 30,
      spvHeadersPath := PushPath(PushPath(home, ".blockstack-core"), "bitcoin-spv-headers.dat"))
  }

  /** The default headers file is `.blockstack-core/bitcoin-spv-headers.dat` under the home directory. */
  lemma DefaultSpvPath(home: string)
    ensures var dir := if home == [] || home[|home| - 1] == '/' then home else home + "/";
      DefaultConfig(home).spvHeadersPath == dir + ".blockstack-core" + "/" + "bitcoin-spv-headers.dat"
  {
    var dir := if home == [] || home[|home| - 1] == '/' then home else home + "/";
    var base := PushPath(home, ".blockstack-core");
    assert base == dir + ".blockstack-core";
    assert base != [] && base[|base| - 1] == 'e';
  }

  /** The key/value pairs of one INI section. */
  type Section = map<string, string>

  /** What `Ini::load_from_file` makes of a file that exists. */
  datatype IniFile = Unparseable | Ini(sections: map<string, Section>)

  /** The files `from_file` can see: a path is a file exactly when it is a key. */
  type FileSystem = map<string, IniFile>

  /** `section.get(key).unwrap_or(default)`. */
  function Lookup(sec: Section, key: string, default: string): (v: string)
    ensures key in sec ==> v == sec[key]
    ensures key !in sec ==> v == default
  {
    if key in sec then sec[key] else default
  }

  /** `text.trim().parse::<u16>()`. */
  function ParseU16(text: string): (r: Option<u16>)
    ensures r.Some? <==> ParseUnsigned(Trim(text), 0x1_0000).Some?
    ensures r.Some? ==> r.value as nat == ParseUnsigned(Trim(text), 0x1_0000).value
  {
    match ParseUnsigned(Trim(text), 0x1_0000)
    case Some(n) => Some(n as u16)
    case None => None
  }

  /** `text.trim().parse::<u32>()`. */
  function ParseU32(text: string): (r: Option<u32>)
    ensures r.Some? <==> ParseUnsigned(Trim(text), 0x1_0000_0000).Some?
    ensures r.Some? ==> r.value as nat == ParseUnsigned(Trim(text), 0x1_0000_0000).value
  {
    match ParseUnsigned(Trim(text), 0x1_0000_0000)
    case Some(n) => Some(n as u32)
    case None => None
  }

  /** A numeral with whitespace around it, as a hand-edited INI value may have, loads as the number. */
  lemma PaddedNumeralParses(pre: string, n: nat, post: string)
    requires forall k :: 0 <= k < |pre| ==> IsWhitespace(pre[k])
    requires forall k :: 0 <= k < |post| ==> IsWhitespace(post[k])
    ensures n < 0x1_0000 ==> ParseU16(pre + Decimal(n) + post) == Some(n as u16)
    ensures n < 0x1_0000_0000 ==> ParseU32(pre + Decimal(n) + post) == Some(n as u32)
  {
    var s := Decimal(n);
    assert !IsWhitespace(s[0]) && !IsWhitespace(s[|s| - 1]);
    TrimPadded(pre, s, post);
    if n < 0x1_0000 {
      ParseDecimal(n, 0x1_0000);
    }
    if n < 0x1_0000_0000 {
      ParseDecimal(n, 0x1_0000_0000);
    }
  }

  /** A port key that is absent (its default is taken) or whose text parses to a port in range. */
  predicate PortKeyAccepted(sec: Section, key: string) {
    key !in sec || (ParseU16(sec[key]).Some? && PortInRange(ParseU16(sec[key]).value as nat))
  }

  predicate TimeoutKeyAccepted(sec: Section) {
    "timeout" !in sec || ParseU32(sec["timeout"]).Some?
  }

  /** The default of an absent numeric key, formatted and parsed back, is the default itself. */
  lemma DefaultTextParses(n: nat, bound: nat)
    requires n < bound
    ensures ParseUnsigned(Trim(Decimal(n)), bound) == Some(n)
  {
    TrimDecimal(n);
    ParseDecimal(n, bound);
  }

  /**
   * One port key of `from_file`: the key's text (or the default, formatted) is trimmed and parsed
   * as a u16, then range-checked; `valueError` reports a failed parse, `rangeError` a port out of range.
   */
  function PortFrom(sec: Section, key: string, default: u16, valueError: string, rangeError: string): (r: Result<u16, string>)
    requires PortInRange(default as nat)
    ensures key in sec && ParseU16(sec[key]).None? ==> r == Err(valueError)
    ensures (key in sec && ParseU16(sec[key]).Some? && !PortInRange(ParseU16(sec[key]).value as nat))
            ==> r == Err(rangeError)
    ensures r.Ok? <==> PortKeyAccepted(sec, key)
    ensures r.Ok? ==> PortInRange(r.value as nat)
    ensures key in sec && r.Ok? ==> ParseU16(sec[key]) == Some(r.value)
    ensures key !in sec ==> r == Ok(default)
  {
    if key !in sec then DefaultTextParses(default as nat, 0x1_0000); Ok(default)
    else
      var port := ParseU16(sec[key]);
      if port.None? then Err(valueError)
      else if port.value <= 1024 || port.value >= 65535 then Err(rangeError)
      else Ok(port.value)
  }

  /** The `timeout` key of `from_file`: trimmed and parsed as a u32, with no range check. */
  function TimeoutFrom(sec: Section, default: u32): (r: Result<u32, string>)
    ensures r.Ok? <==> TimeoutKeyAccepted(sec)
    ensures r.Err? ==> r.error == ErrTimeoutValue
    ensures "timeout" in sec && r.Ok? ==> ParseU32(sec["timeout"]) == Some(r.value)
    ensures "timeout" !in sec ==> r == Ok(default)
  {
    if "timeout" !in sec then DefaultTextParses(default as nat, 0x1_0000_0000); Ok(default)
    else
      var timeout := ParseU32(sec["timeout"]);
      if timeout.None? then Err(ErrTimeoutValue) else Ok(timeout.value)
  }

  /**
   * The body of `from_file` once the `[bitcoin]` section is found. Every key is optional and an
   * absent one takes its default. The checks run in the order p2p_port parse, p2p_port range,
   * port parse, port range, timeout parse, and the first that fails decides the error.
   */
  function FromSection(sec: Section, home: string): (r: Result<Config, string>)
    // the first failing check, in order
    ensures "p2p_port" in sec && ParseU16(sec["p2p_port"]).None? ==> r == Err(ErrP2pPortValue)
    ensures ("p2p_port" in sec && ParseU16(sec["p2p_port"]).Some?
             && !PortInRange(ParseU16(sec["p2p_port"]).value as nat))
            ==> r == Err(ErrP2pPortRange)
    ensures (PortKeyAccepted(sec, "p2p_port") && "port" in sec && ParseU16(sec["port"]).None?)
            ==> r == Err(ErrRpcPortValue)
    ensures (PortKeyAccepted(sec, "p2p_port") && "port" in sec && ParseU16(sec["port"]).Some?
             && !PortInRange(ParseU16(sec["port"]).value as nat))
            ==> r == Err(ErrRpcPortRange)
    ensures (PortKeyAccepted(sec, "p2p_port") && PortKeyAccepted(sec, "port") && !TimeoutKeyAccepted(sec))
            ==> r == Err(ErrTimeoutValue)
    // and nothing else fails
    ensures r.Ok? <==> PortKeyAccepted(sec, "p2p_port") && PortKeyAccepted(sec, "port") && TimeoutKeyAccepted(sec)
    // an accepted configuration holds validated ports
    ensures r.Ok? ==> PortInRange(r.value.peerPort as nat) && PortInRange(r.value.rpcPort as nat)
    // each field is its key's value, or the default when the key is absent
    ensures r.Ok? ==> var c, d := r.value, DefaultConfig(home);
      && c.peerHost == Lookup(sec, "server", d.peerHost)
      && ("p2p_port" in sec ==> ParseU16(sec["p2p_port"]) == Some(c.peerPort))
      && ("p2p_port" !in sec ==> c.peerPort == d.peerPort)
      && ("port" in sec ==> ParseU16(sec["port"]) == Some(c.rpcPort))
      && ("port" !in sec ==> c.rpcPort == d.rpcPort)
      && c.username == Lookup(sec, "user", d.username)
      && c.password == Lookup(sec, "password", d.password)
      && ("timeout" in sec ==> ParseU32(sec["timeout"]) == Some(c.timeout))
      && ("timeout" !in sec ==> c.timeout == d.timeout)
      && c.spvHeadersPath == Lookup(sec, "spv_headers_path", d.spvHeadersPath)
  {
    var d := DefaultConfig(home);
    var peerHost := Lookup(sec, "server", d.peerHost);
    var peerPort := PortFrom(sec, "p2p_port", d.peerPort, ErrP2pPortValue, ErrP2pPortRange);
    if peerPort.Err? then Err(peerPort.error)
    else
      var rpcPort := PortFrom(sec, "port", d.rpcPort, ErrRpcPortValue, ErrRpcPortRange);
      if rpcPort.Err? then Err(rpcPort.error)
      else
        var username := Lookup(sec, "user", d.username);
        var password := Lookup(sec, "password", d.password);
        var timeout := TimeoutFrom(sec, d.timeout);
        if timeout.Err? then Err(timeout.error)
        else
          var spvHeadersPath := Lookup(sec, "spv_headers_path", d.spvHeadersPath);
          Ok(Config(peerHost, peerPort.value, rpcPort.value, username, password, timeout.value, spvHeadersPath))
  }

  /**
   * `BitcoinIndexerConfig::from_file`: a missing file, then an unparseable one, then a missing
   * `[bitcoin]` section are reported before any key is looked at.
   */
  function FromFile(path: string, fs: FileSystem, home: string): (r: Result<Config, string>)
    ensures path !in fs ==> r == Err(ErrNoFile)
    ensures path in fs && fs[path].Unparseable? ==> r == Err(ErrUnparseable)
    ensures path in fs && fs[path].Ini? && "bitcoin" !in fs[path].sections ==> r == Err(ErrNoSection)
    ensures (path in fs && fs[path].Ini? && "bitcoin" in fs[path].sections)
            ==> r == FromSection(fs[path].sections["bitcoin"], home)
    ensures r.Ok? ==> PortInRange(r.value.peerPort as nat) && PortInRange(r.value.rpcPort as nat)
  {
    if path !in fs then Err(ErrNoFile)
    else match fs[path]
      case Unparseable => Err(ErrUnparseable)
      case Ini(sections) =>
        if "bitcoin" !in sections then Err(ErrNoSection)
        else FromSection(sections["bitcoin"], home)
  }

  /** A `[bitcoin]` section with no keys yields exactly the defaults, and the default ports are valid. */
  lemma EmptySectionGivesDefaults(home: string)
    ensures FromSection(map[], home) == Ok(DefaultConfig(home))
    ensures PortInRange(DefaultConfig(home).peerPort as nat) && PortInRange(DefaultConfig(home).rpcPort as nat)
  {
  }

  /** With only `p2p_port` given as a numeral, loading succeeds exactly for ports strictly between 1024 and 65535. */
  lemma P2pPortAcceptedIffInRange(p: u16, home: string)
    ensures var r := FromSection(map["p2p_port" := Decimal(p as nat)], home);
      && (r.Ok? <==> PortInRange(p as nat))
      && (r.Ok? ==> r.value.peerPort == p)
      && (!PortInRange(p as nat) ==> r == Err(ErrP2pPortRange))
  {
    TrimDecimal(p as nat);
    ParseDecimal(p as nat, 0x1_0000);
  }

  /** A `p2p_port` numeral too large for a u16 fails the parse, so it is a value error and not a range error. */
  lemma P2pPortOverflowIsValueError(n: nat, home: string)
    requires n >= 0x1_0000
    ensures FromSection(map["p2p_port" := Decimal(n)], home) == Err(ErrP2pPortValue)
  {
    TrimDecimal(n);
    DecimalValue(n);
  }

  /** With only `port` given as a numeral, loading succeeds exactly for ports strictly between 1024 and 65535. */
  lemma RpcPortAcceptedIffInRange(p: u16, home: string)
    ensures var r := FromSection(map["port" := Decimal(p as nat)], home);
      && (r.Ok? <==> PortInRange(p as nat))
      && (r.Ok? ==> r.value.rpcPort == p)
      && (!PortInRange(p as nat) ==> r == Err(ErrRpcPortRange))
  {
    TrimDecimal(p as nat);
    ParseDecimal(p as nat, 0x1_0000);
  }

  /** The bitcoin networks the indexer can join. */
  datatype Network = Mainnet | Testnet | Regtest {
    function Name(): string {
      match this
      case Mainnet => "mainnet"
      case Testnet => "testnet"
      case Regtest => "regtest"
    }

    function Magic(): (m: u32)
      ensures m in {BITCOIN_MAINNET, BITCOIN_TESTNET, BITCOIN_REGTEST}
    {
      match this
      case Mainnet => BITCOIN_MAINNET
      case Testnet => BITCOIN_TESTNET
      case Regtest => BITCOIN_REGTEST
    }
  }

  /** The network-name `match` of `connect`: exactly the three names are recognised. */
  function ParseNetwork(name: string): (r: Option<Network>)
    ensures r.Some? ==> r.value.Name() == name
    ensures r.None? ==> name != "mainnet" && name != "testnet" && name != "regtest"
  {
    match name
    case "mainnet" => Some(Mainnet)
    case "testnet" => Some(Testnet)
    case "regtest" => Some(Regtest)
    case _ => None
  }

  /** Each network's name selects it, each network has its own magic, and the three magics are pairwise distinct. */
  lemma NetworkNamesAndMagics(n: Network, m: Network)
    ensures ParseNetwork(n.Name()) == Some(n)
    ensures Mainnet.Magic() == 0xD9B4BEF9 && Testnet.Magic() == 0x0709110B && Regtest.Magic() == 0xDAB5BFFA
    ensures n != m ==> n.Magic() != m.Magic()
  {
  }

  /** An open TCP stream, known by the endpoint it was connected to. */
  datatype TcpStream = TcpStream(host: string, port: u16)

  /** `BitcoinIndexerRuntime`; the socket slot is the `Option` inside its `Arc<Mutex<…>>`. */
  datatype Runtime = Runtime(
    sock: Option<TcpStream>,
    services: u64,
    userAgent: string,
    versionNonce: u64,
    magic: u32)

  /** `BitcoinIndexerRuntime::default`, with the random nonce passed in. */
  function DefaultRuntime(networkId: u32, nonce: u64): (r: Runtime)
    ensures r.sock.None? && r.services == 0 && r.userAgent == USER_AGENT
    ensures r.magic == networkId && r.versionNonce == nonce
  {
    Runtime(sock := None, services := 0, userAgent := USER_AGENT, versionNonce := nonce, magic := networkId)
  }

  /** `BitcoinIndexer`. */
  class BitcoinIndexer {
    var config: Config
    var runtime: Runtime

    /** `BitcoinIndexer::new`: default configuration, and a fresh mainnet runtime with no socket. */
    constructor (home: string, nonce: u64)
      ensures config == DefaultConfig(home)
      ensures runtime == DefaultRuntime(BITCOIN_MAINNET, nonce)
    {
      config := DefaultConfig(home);
      runtime := DefaultRuntime(BITCOIN_MAINNET, nonce);
    }

    /**
     * `reconnect_peer`: replaces the socket slot with a stream to the configured peer when
     * `canConnect` (the outcome of the TCP connect to that endpoint) says so, and with `None` otherwise.
     */
    method ReconnectPeer(canConnect: (string, u16) -> bool) returns (r: Result<(), string>)
      modifies this
      ensures config == old(config)
      ensures var reached := canConnect(config.peerHost, config.peerPort);
        && runtime == old(runtime).(sock := if reached then Some(TcpStream(config.peerHost, config.peerPort)) else None)
        && r == if reached then Ok(()) else Err(ErrPeerUnreachable)
    {
      if canConnect(config.peerHost, config.peerPort) {
        runtime := runtime.(sock := Some(TcpStream(config.peerHost, config.peerPort)));
        r := Ok(());
      } else {
        runtime := runtime.(sock := None);
        r := Err(ErrPeerUnreachable);
      }
    }

    /** `setup`: loads `bitcoin.ini` from the working directory; the configuration changes only if that succeeds. */
    method Setup(workingDir: string, fs: FileSystem, home: string) returns (r: Result<(), string>)
      modifies this
      ensures runtime == old(runtime)
      ensures var loaded := FromFile(PushPath(workingDir, "bitcoin.ini"), fs, home);
        && (loaded.Ok? ==> r == Ok(()) && config == loaded.value)
        && (loaded.Err? ==> r == Err(loaded.error) && config == old(config))
    {
      var loaded := FromFile(PushPath(workingDir, "bitcoin.ini"), fs, home);
      match loaded {
        case Ok(cfg) =>
          config := cfg;
          r := Ok(());
        case Err(e) =>
          r := Err(e);
      }
    }

    /**
     * `connect`: an unrecognised network name is refused before anything changes; otherwise the
     * runtime is replaced by a fresh one for that network's magic and the peer is (re)connected.
     */
    method Connect(networkName: string, nonce: u64, canConnect: (string, u16) -> bool) returns (r: Result<(), string>)
      modifies this
      ensures config == old(config)
      ensures ParseNetwork(networkName).None? ==> r == Err(ErrUnknownNetwork) && runtime == old(runtime)
      ensures ParseNetwork(networkName).Some? ==>
        var reached := canConnect(config.peerHost, config.peerPort);
        && runtime.magic == ParseNetwork(networkName).value.Magic()
        && runtime.services == 0 && runtime.userAgent == USER_AGENT && runtime.versionNonce == nonce
        && runtime.sock == (if reached then Some(TcpStream(config.peerHost, config.peerPort)) else None)
        && r == if reached then Ok(()) else Err(ErrPeerUnreachable)
    {
      var network := ParseNetwork(networkName);
      if network.None? {
        return Err(ErrUnknownNetwork);
      }
      runtime := DefaultRuntime(network.value.Magic(), nonce);
      r := ReconnectPeer(canConnect);
    }
  }
}
