/**
  The proxy cache of esf.c: filled once from the network manager's parameters, read through two
  families of keys, and emptied on failure and at exit.
*/
module ProxyCache {
  import opened Common
  import opened CStrings
  import Decimal

  const ENOMEM := 12
  const EIO := 5
  const ERANGE := 34

  datatype Params = Params(url: string, port: int, username: string, password: string)

  /** The four strings are C strings. */
  predicate Textual(p: Params) {
    '\0' !in p.url && '\0' !in p.username && '\0' !in p.password
  }

  datatype Key =
    | MqttProxyHost | MqttProxyPort | MqttProxyUsername | MqttProxyPassword
    | HttpProxyHost | HttpProxyPort | HttpProxyUsername | HttpProxyPassword

  datatype Config = Config(key: Key, value: string, size: nat)

  /** How the calls made by the initialisation turn out. */
  datatype Outcomes = Outcomes(parameterBlock: bool, load: bool, host: bool, username: bool, password: bool)

  /** The initialisation succeeds when everything it asks for is granted and the port fits its buffer. */
  predicate Succeeds(o: Outcomes, p: Params, portLen: nat) {
    && o.parameterBlock && o.load
    && (p.url != "" ==> o.host && |Decimal.Print(p.port)| < portLen)
    && (p.username != "" ==> o.username)
    && (p.password != "" ==> o.password)
  }

  /** The port buffer is written as soon as the host has been copied, whatever follows. */
  predicate PortWritten(o: Outcomes, p: Params) {
    o.parameterBlock && o.load && p.url != "" && o.host
  }

  /** Each pointer is assigned strdup's result, NULL included, as soon as its copy is asked for. */
  predicate HostAsked(o: Outcomes, p: Params) {
    o.parameterBlock && o.load && p.url != ""
  }

  predicate UsernameAsked(o: Outcomes, p: Params, portLen: nat) {
    && o.parameterBlock && o.load && p.username != ""
    && (p.url != "" ==> o.host && |Decimal.Print(p.port)| < portLen)
  }

  predicate PasswordAsked(o: Outcomes, p: Params, portLen: nat) {
    && o.parameterBlock && o.load && p.password != ""
    && (p.url != "" ==> o.host && |Decimal.Print(p.port)| < portLen)
    && (p.username != "" ==> o.username)
  }

  function Given(s: string): Option<string> {
    if s == "" then None else Some(s)
  }

  /** What the port buffer holds once the port has been written. */
  function WrittenPort(n: int, portLen: nat): string
    requires portLen >= 1
  {
    Decimal.Print(n)[..Min(|Decimal.Print(n)|, portLen - 1)]
  }

  class Cache {
    var host: Option<string>
    const port: array<char>
    var username: Option<string>
    var password: Option<string>
    /** Blocks obtained from the allocator and not given back. */
    var live: int

    ghost predicate Valid() {
      port.Length >= 1
    }

    ghost function PortText(): string
      requires Valid()
      reads port
    {
      port[..NulAt(port[..])]
    }

    ghost predicate Empty()
      reads this`host, this`username, this`password
    {
      host.None? && username.None? && password.None?
    }

    /** Static storage: every pointer NULL, every character of the port NUL. */
    constructor (portLen: nat)
      requires portLen >= 1
      ensures Valid() && Empty() && PortText() == "" && live == 0 && port.Length == portLen && fresh(port)
    {
      host, username, password, live := None, None, None, 0;
      port := new char[portLen](_ => '\0');
    }

    ghost function Held(): int
      reads this`host, this`username, this`password
    {
      (if host.Some? then 1 else 0) + (if username.Some? then 1 else 0) + (if password.Some? then 1 else 0)
    }

    /** Blocks the initialisation loses: those whose pointer it assigns while they are still held. */
    ghost function Lost(p: Params, o: Outcomes): int
      reads this`host, this`username, this`password
    {
      (if host.Some? && HostAsked(o, p) then 1 else 0) +
      (if username.Some? && UsernameAsked(o, p, port.Length) then 1 else 0) +
      (if password.Some? && PasswordAsked(o, p, port.Length) then 1 else 0)
    }

    method Deinit()
      modifies this
      ensures Empty() && live == old(live) - old(Held())
    {
      if host.Some? { live := live - 1; host := None; }
      if username.Some? { live := live - 1; username := None; }
      if password.Some? { live := live - 1; password := None; }
    }

    /** What each key should give, given what the cache holds. */
    ghost function Source(key: Key): Option<string>
      requires Valid()
      reads this, port
    {
      match key
      case MqttProxyHost | HttpProxyHost => host
      case MqttProxyPort | HttpProxyPort => Given(PortText())
      case MqttProxyUsername | HttpProxyUsername => username
      case MqttProxyPassword | HttpProxyPassword => password
    }

    /** evp_agent_esf_init_proxy_cache, from any cache: what it still held may be replaced without being freed. */
    method Init(p: Params, o: Outcomes) returns (ret: int)
      requires Valid() && Textual(p)
      modifies this, port
      ensures ret == 0 <==> Succeeds(o, p, port.Length)
      ensures ret == -5 <==> o.parameterBlock && !o.load
      ensures ret == -34 <==> HostAsked(o, p) && o.host && |Decimal.Print(p.port)| >= port.Length
      ensures ret == 0 || ret == -5 || ret == -34 || ret == -12
      ensures ret == 0 ==> && host == (if p.url == "" then old(host) else Some(p.url))
                           && username == (if p.username == "" then old(username) else Some(p.username))
                           && password == (if p.password == "" then old(password) else Some(p.password))
      ensures ret != 0 ==> Empty()
      ensures live == old(live) - old(Held()) + Held() + old(Lost(p, o))
      ensures PortText() == if PortWritten(o, p)
                            then WrittenPort(p.port, port.Length)
                            else old(PortText())
    {
      if !o.parameterBlock {
        Deinit();
        return -ENOMEM;
      }
      live := live + 1;
      ret := Fill(p, o);
      live := live - 1;
      if ret != 0 {
        Deinit();
      }
    }

    method Fill(p: Params, o: Outcomes) returns (ret: int)
      requires Valid() && Textual(p) && o.parameterBlock
      modifies this, port
      ensures ret == 0 <==> Succeeds(o, p, port.Length)
      ensures ret == -5 <==> o.parameterBlock && !o.load
      ensures ret == -34 <==> HostAsked(o, p) && o.host && |Decimal.Print(p.port)| >= port.Length
      ensures ret == 0 || ret == -5 || ret == -34 || ret == -12
      ensures ret == 0 ==> && host == (if p.url == "" then old(host) else Some(p.url))
                           && username == (if p.username == "" then old(username) else Some(p.username))
                           && password == (if p.password == "" then old(password) else Some(p.password))
      ensures live == old(live) - old(Held()) + Held() + old(Lost(p, o))
      ensures PortText() == if PortWritten(o, p)
                            then WrittenPort(p.port, port.Length)
                            else old(PortText())
    {
      if !o.load {
        return -EIO;
      }
      if p.url != "" {
        if !o.host {
          host := None;
          return -ENOMEM;
        }
        host := Some(p.url);
        live := live + 1;
        var portStrLen := WritePort(p.port);
        if portStrLen >= port.Length {
          return -ERANGE;
        }
      }
      if p.username != "" {
        if !o.username {
          username := None;
          return -ENOMEM;
        }
        username := Some(p.username);
        live := live + 1;
      }
      if p.password != "" {
        if !o.password {
          password := None;
          return -ENOMEM;
        }
        password := Some(p.password);
        live := live + 1;
      }
      return 0;
    }

    method WritePort(n: int) returns (length: nat)
      requires Valid()
      modifies port
      ensures length == |Decimal.Print(n)|
      ensures PortText() == WrittenPort(n, port.Length)
    {
      var text := Decimal.Print(n);
      Snprintf(port, text);
      var k := Min(|text|, port.Length - 1);
      Decimal.PrintRead(n);
      assert '\0' !in port[..][..k] by {
        assert port[..][..k] == text[..k];
      }
      assert port[..][k] == '\0';
      NulAtIs(port[..], k);
      assert port[..k] == text[..k];
      length := |text|;
    }

    /** evp_agent_esf_read_config for the proxy keys. */
    method ReadConfig(key: Key, maxSize: nat, callocOk: bool, mallocOk: bool) returns (config: Option<Config>)
      requires Valid() && maxSize >= 1
      ensures config.None? <==> Source(key).None? || !callocOk || !mallocOk
      ensures config.Some? ==>
                var source := Source(key).value;
                && config.value.key == key
                && config.value.value == source[..Min(NulAt(source), maxSize - 1)]
                && config.value.size == |config.value.value| + 1
    {
      if !callocOk {
        return None;
      }
      var source: Option<string>;
      match key {
        case MqttProxyHost | HttpProxyHost => source := host;
        case MqttProxyPort | HttpProxyPort => source := ReadPort();
        case MqttProxyUsername | HttpProxyUsername => source := username;
        case MqttProxyPassword | HttpProxyPassword => source := password;
      }
      if source.None? || !mallocOk {
        return None;
      }
      var value := BoundedCopy(source.value, maxSize);
      return Some(Config(key, value, |value| + 1));
    }

    method ReadPort() returns (source: Option<string>)
      requires Valid()
      ensures source == Given(PortText())
    {
      if port[0] != '\0' {
        var n := 0;
        while n < port.Length && port[n] != '\0'
          invariant n <= port.Length && '\0' !in port[..n]
        {
          assert port[..n + 1] == port[..n] + [port[n]];
          n := n + 1;
        }
        assert port[..][..n] == port[..n];
        NulAtIs(port[..], n);
        source := Some(port[..n]);
      } else {
        source := None;
      }
    }
  }

  /** calloc, strncpy, and the NUL stored at the last but one place. */
  method BoundedCopy(source: string, maxSize: nat) returns (value: string)
    requires maxSize >= 1
    ensures value == source[..Min(NulAt(source), maxSize - 1)]
  {
    var buf := new char[maxSize + 1](_ => '\0');
    Strncpy(buf, source, maxSize);
    buf[maxSize - 1] := '\0';
    ghost var k := Min(NulAt(source), maxSize - 1);
    assert buf[k] == '\0';
    var n := Strlen(buf, k);
    assert buf[..k] == source[..k];
    NulAtIs(source[..k], k);
    value := buf[..n];
  }

  // ---------------------------------------------------------------------------------------
  // Initialisation and reading together
  // ---------------------------------------------------------------------------------------

  /** What a key stands for in the loaded parameters; a port without a host counts as unset. */
  function Loaded(key: Key, p: Params): Option<string> {
    match key
    case MqttProxyHost | HttpProxyHost => Given(p.url)
    case MqttProxyPort | HttpProxyPort => if p.url == "" then None else Some(Decimal.Print(p.port))
    case MqttProxyUsername | HttpProxyUsername => Given(p.username)
    case MqttProxyPassword | HttpProxyPassword => Given(p.password)
  }

  predicate IsPort(key: Key) { key.MqttProxyPort? || key.HttpProxyPort? }

  /** What can be read after one initialisation of an empty cache. */
  function Readable(key: Key, p: Params, o: Outcomes, portLen: nat): Option<string>
    requires portLen >= 1
  {
    if Succeeds(o, p, portLen) then Loaded(key, p)
    else if IsPort(key) && PortWritten(o, p) then Given(WrittenPort(p.port, portLen))
    else None
  }

  lemma ReadableIsText(key: Key, p: Params, o: Outcomes, portLen: nat, maxSize: nat)
    requires Textual(p) && portLen >= 1 && maxSize >= 1 && Readable(key, p, o, portLen).Some?
    ensures var v := Readable(key, p, o, portLen).value;
            v[..Min(NulAt(v), maxSize - 1)] == v[..Min(|v|, maxSize - 1)]
  {
    var v := Readable(key, p, o, portLen).value;
    Decimal.PrintRead(p.port);
    assert '\0' !in v;
    NulAtIs(v, |v|);
  }

  /** Static storage, then one initialisation. */
  method Initialised(p: Params, o: Outcomes, portLen: nat) returns (ret: int, cache: Cache)
    requires Textual(p) && portLen >= 1
    ensures fresh(cache) && cache.Valid()
    ensures ret == 0 <==> Succeeds(o, p, portLen)
    ensures ret != 0 ==> cache.live == 0
    ensures forall key :: cache.Source(key) == Readable(key, p, o, portLen)
  {
    cache := new Cache(portLen);
    ret := cache.Init(p, o);
    ghost var text := Decimal.Print(p.port);
    assert text != "" && (|text| < portLen ==> WrittenPort(p.port, portLen) == text);
  }

  /**
    From static storage through one initialisation to one read.  After success the key gives its
    parameter, cut to the buffer, or nothing exactly when it is unset; after failure it gives
    nothing, except that a port already written is still readable, cut to its own buffer as well.
  */
  method ReadBack(p: Params, o: Outcomes, portLen: nat, key: Key, maxSize: nat)
    returns (ret: int, config: Option<Config>, live: int)
    requires Textual(p) && portLen >= 1 && maxSize >= 1
    ensures ret == 0 <==> Succeeds(o, p, portLen)
    ensures ret != 0 ==> live == 0
    ensures config.Some? <==> if ret == 0 then Loaded(key, p).Some? else IsPort(key) && PortWritten(o, p) && portLen > 1
    ensures config.Some? ==>
              var v := if ret == 0 then Loaded(key, p).value else WrittenPort(p.port, portLen);
              config.value == Config(key, v[..Min(|v|, maxSize - 1)], Min(|v|, maxSize - 1) + 1)
  {
    var cache;
    ret, cache := Initialised(p, o, portLen);
    config := cache.ReadConfig(key, maxSize, true, true);
    live := cache.live;
    if config.Some? {
      ReadableIsText(key, p, o, portLen, maxSize);
    }
  }

  /** Read with a buffer of its own length, the port text is the loaded number again. */
  lemma PortReadsBack(o: Outcomes, p: Params, portLen: nat)
    requires Succeeds(o, p, portLen) && p.url != ""
    ensures var v := Loaded(MqttProxyPort, p).value;
            Decimal.Read(v[..Min(|v|, portLen - 1)]) == Some(p.port)
  {
    var v := Decimal.Print(p.port);
    assert v[..Min(|v|, portLen - 1)] == v;
    Decimal.PrintRead(p.port);
  }

  method Value(cache: Cache, key: Key, maxSize: nat, ghost whole: string) returns (value: string)
    requires cache.Valid() && cache.Source(key) == Some(whole) && '\0' !in whole && |whole| < maxSize
    ensures value == whole
  {
    var config := cache.ReadConfig(key, maxSize, true, true);
    NulAtIs(whole, |whole|);
    value := config.value.value;
  }

  /** A whole family of keys, in the order host, port, user name, password. */
  method ReadFamily(cache: Cache, keys: seq<Key>, maxSize: nat, ghost values: seq<string>) returns (read: seq<string>)
    requires cache.Valid() && |keys| == |values|
    requires forall k :: 0 <= k < |keys| ==> cache.Source(keys[k]) == Some(values[k])
    requires forall k :: 0 <= k < |keys| ==> '\0' !in values[k] && |values[k]| < maxSize
    ensures read == values
  {
    read := [];
    for i := 0 to |keys|
      invariant |read| == i && forall k :: 0 <= k < i ==> read[k] == values[k]
    {
      var value := Value(cache, keys[i], maxSize, values[i]);
      read := read + [value];
    }
  }

  const MQTT_KEYS: seq<Key> := [MqttProxyHost, MqttProxyPort, MqttProxyUsername, MqttProxyPassword]
  const HTTP_KEYS: seq<Key> := [HttpProxyHost, HttpProxyPort, HttpProxyUsername, HttpProxyPassword]

  lemma EveryKeyReadable(p: Params, o: Outcomes, portLen: nat, k: nat)
    requires portLen >= 1 && k < 4 && Succeeds(o, p, portLen)
    requires p.url != "" && p.username != "" && p.password != ""
    ensures var values := [p.url, Decimal.Print(p.port), p.username, p.password];
            Readable(MQTT_KEYS[k], p, o, portLen) == Some(values[k]) == Readable(HTTP_KEYS[k], p, o, portLen)
  {
  }

  /** With every parameter set and room for each, both families of keys give the parameters themselves. */
  method ReadEveryKey(p: Params, portLen: nat, maxSize: nat)
    returns (mqtt: seq<string>, http: seq<string>)
    requires Textual(p) && p.url != "" && p.username != "" && p.password != ""
    requires |Decimal.Print(p.port)| < portLen && |Decimal.Print(p.port)| < maxSize
    requires |p.url| < maxSize && |p.username| < maxSize && |p.password| < maxSize
    ensures mqtt == http && |mqtt| == 4
    ensures mqtt[0] == p.url && Decimal.Read(mqtt[1]) == Some(p.port) && mqtt[2] == p.username && mqtt[3] == p.password
  {
    var o := Outcomes(true, true, true, true, true);
    var ret, cache := Initialised(p, o, portLen);
    ghost var values := [p.url, Decimal.Print(p.port), p.username, p.password];
    Decimal.PrintRead(p.port);
    forall k | 0 <= k < 4
      ensures cache.Source(MQTT_KEYS[k]) == Some(values[k]) == cache.Source(HTTP_KEYS[k])
    {
      EveryKeyReadable(p, o, portLen, k);
    }
    mqtt := ReadFamily(cache, MQTT_KEYS, maxSize, values);
    http := ReadFamily(cache, HTTP_KEYS, maxSize, values);
  }

  /** The user name's copy fails, and the port of the abandoned proxy is still there to be read. */
  method StalePortExample() returns (ret: int, config: Option<Config>)
    ensures ret != 0 && config == Some(Config(MqttProxyPort, "8080", 5))
  {
    var p, o := Params("proxy", 8080, "user", ""), Outcomes(true, true, true, false, true);
    var live;
    ret, config, live := ReadBack(p, o, 8, MqttProxyPort, 64);
    assert Decimal.Digits(8) == "8";
    assert Decimal.Digits(80) == "80";
    assert Decimal.Digits(808) == "808";
    assert Decimal.Print(8080) == "8080";
    assert WrittenPort(8080, 8) == "8080";
  }
}
