/**
 * The SOAP data source of a CakePHP 2 application: it builds the WSDL URL and
 * the client options from its configuration, (re)connects a SOAP client, checks
 * that a requested remote operation is advertised by the service, and calls it,
 * turning every failure into one of the framework's exceptions.
 *
 * The SOAP library itself is not modelled: a `Remote` value stands for it and
 * says, for each request, whether it succeeds or faults.
 */
module SoapSource {
  import opened Php

  /** `SOAP_COMPRESSION_*` flags, as abstract values. */
  datatype CompressionFlag = Accept | Gzip | Deflate

  /** `WSDL_CACHE_*` modes, as abstract values. */
  datatype WsdlCache = CacheNone | CacheDisk | CacheMemory | CacheBoth

  /** The value stored under one key of the options array given to `SoapClient`. */
  datatype OptionValue =
    | Compression(flags: set<CompressionFlag>)
    | Flag(b: bool)
    | Cache(mode: WsdlCache)
    | Credential(v: Value)

  /** The options array passed to the `SoapClient` constructor. */
  type ClientOptions = map<string, OptionValue>

  /** The connection settings of the data source (its `$config` array). */
  datatype Config = Config(
    localhost: string,
    service: string,
    cache: Value,
    login: Value,
    password: Value)

  /** The exceptions the data source throws. */
  datatype Error =
    | SoapClientNotInstalled         // CakeException: the SoapClient class does not exist
    | MissingConnection(fault: string) // MissingConnectionException carrying the fault string
    | FunctionNotExist(name: string)   // CakeException: the operation is not advertised
    | InvalidArgument(fault: string)   // InvalidArgumentException carrying the fault string

  datatype Result<+T> = Success(value: T) | Failure(error: Error)

  /** A `SoapClient` handle: the WSDL it was built from and the options it was given. */
  datatype Client = Client(wsdl: string, options: ClientOptions)

  /** What the remote call `__soapCall` yields. */
  datatype CallOutcome = Returned(v: Value) | Fault(faultstring: string)

  /**
   * The SOAP library and the service behind it, as an oracle:
   * whether the `SoapClient` class exists; whether constructing a client
   * against a WSDL URL with given options throws a `SoapFault` (and with which
   * fault string); the operation signatures `__getFunctions` advertises; and
   * what `__soapCall` yields for an operation name and an argument list.
   */
  datatype Remote = Remote(
    soapClientInstalled: bool,
    construct: (string, ClientOptions) -> Option<string>,
    advertised: Client -> seq<string>,
    invoke: (Client, string, Value) -> CallOutcome)

  /** The argument list `[$params]` that `__soapCall` receives: the parameters as its one entry. */
  function ArgumentList(params: Value): (args: Value)
    ensures args.Array? && |args.entries| == 1 && args.entries[0] == (Int(0), params)
  {
    Array([(Int(0), params)])
  }

  /** The interactions with the SOAP library, in the order they happen. */
  datatype Event =
    | Construct(wsdl: string, options: ClientOptions)
    | SoapCall(client: Client, name: string, args: Value)

  /** The key of the debug array under which the WSDL URL is kept. */
  const LocalhostKey := "localhost"

  const WsdlSuffix := "?wsdl"

  // ---------------------------------------------------------------------------
  // The WSDL URL
  // ---------------------------------------------------------------------------

  /** The WSDL URL: the base URL, one slash, the service name, and `?wsdl`. */
  function WsdlUrl(config: Config): (url: string)
    ensures |url| == |config.localhost| + 1 + |config.service| + |WsdlSuffix|
    ensures url[..|config.localhost|] == config.localhost
    ensures url[|config.localhost|] == '/'
    ensures url[|config.localhost| + 1..|url| - |WsdlSuffix|] == config.service
    ensures url[|url| - |WsdlSuffix|..] == WsdlSuffix
  {
    config.localhost + "/" + config.service + WsdlSuffix
  }

  /** Recovers the service name from a WSDL URL built on the base URL `localhost`. */
  function ServiceOf(localhost: string, url: string): (service: Option<string>)
    ensures service.Some? ==> url == localhost + "/" + service.value + WsdlSuffix
  {
    if |url| >= |localhost| + 1 + |WsdlSuffix| && url[..|localhost|] == localhost
       && url[|localhost|] == '/' && url[|url| - |WsdlSuffix|..] == WsdlSuffix
    then
      var s := url[|localhost| + 1..|url| - |WsdlSuffix|];
      assert url == url[..|localhost|] + [url[|localhost|]] + s + url[|url| - |WsdlSuffix|..];
      Some(s)
    else None
  }

  /** The WSDL URL determines the service name once the base URL is known. */
  lemma WsdlUrlRoundTrip(config: Config)
    ensures ServiceOf(config.localhost, WsdlUrl(config)) == Some(config.service)
  {
  }

  // ---------------------------------------------------------------------------
  // The client options
  // ---------------------------------------------------------------------------

  /** Both credentials are set to truthy values. */
  predicate HasCredentials(config: Config)
    ensures HasCredentials(config) <==>
      config.login !in FalsyValues && config.password !in FalsyValues
  {
    Truthy(config.login) && Truthy(config.password)
  }

  /**
   * The options array given to `SoapClient`: compression, warnings off and
   * the WSDL cache mode; or, when both credentials are truthy, an array
   * holding ONLY the login and the password, which replaces the former.
   */
  function GetConfig(config: Config): (options: ClientOptions)
    ensures HasCredentials(config) ==>
      options.Keys == {"login", "password"} &&
      options["login"] == Credential(config.login) &&
      options["password"] == Credential(config.password)
    ensures !HasCredentials(config) ==>
      options.Keys == {"compression", "warning", "cache_wsdl"} &&
      options["compression"] == Compression({Accept, Gzip}) &&
      options["warning"] == Flag(false) &&
      options["cache_wsdl"] == Cache(if Truthy(config.cache) then CacheDisk else CacheNone)
  {
    var defaults := map[
      "compression" := Compression({Accept, Gzip}),
      "warning" := Flag(false),
      "cache_wsdl" := Cache(if Truthy(config.cache) then CacheDisk else CacheNone)];
    if HasCredentials(config) then
      map["login" := Credential(config.login), "password" := Credential(config.password)]
    else defaults
  }

  /**
   * With credentials, the options keep no compression, warning or cache
   * setting, and so do not depend on the cache flag at all.
   */
  lemma CredentialsDropDefaults(c1: Config, c2: Config)
    requires HasCredentials(c1)
    requires c2 == c1.(cache := c2.cache)
    ensures "compression" !in GetConfig(c1) && "warning" !in GetConfig(c1)
    ensures "cache_wsdl" !in GetConfig(c1)
    ensures GetConfig(c1) == GetConfig(c2)
  {
  }

  /**
   * A single credential, or one whose value is falsy (such as `""` or `"0"`),
   * counts as none: the options are the defaults, whatever the credentials hold.
   */
  lemma PartialCredentialsIgnored(c1: Config, c2: Config)
    requires !HasCredentials(c1) && !HasCredentials(c2)
    requires Truthy(c1.cache) == Truthy(c2.cache)
    ensures GetConfig(c1) == GetConfig(c2)
    ensures "login" !in GetConfig(c1) && "password" !in GetConfig(c1)
  {
  }

  // ---------------------------------------------------------------------------
  // Checking that an operation is advertised
  // ---------------------------------------------------------------------------

  /**
   * One signature counts when `strripos(signature, name)` is truthy, that is
   * when the last case-insensitive occurrence of the name is at an index
   * above 0.
   */
  predicate Counted(signature: string, name: string)
    requires name != []
    ensures Counted(signature, name) ==> |name| < |signature|
    ensures Counted(signature, name) <==>
      StrRiPos(signature, name).Some? && StrRiPos(signature, name).value > 0
  {
    Truthy(Position(StrRiPos(signature, name)))
  }

  /** The name occurs in the signature at some index above 0, ignoring case. */
  ghost predicate HasLateOccurrence(signature: string, name: string)
  {
    exists i: nat :: 0 < i && OccursAt(signature, name, i)
  }

  /** Some advertised signature has an occurrence of the name past its first character. */
  ghost predicate Advertises(functions: seq<string>, name: string)
  {
    exists k :: 0 <= k < |functions| && HasLateOccurrence(functions[k], name)
  }

  /**
   * The number of signatures that count, as the validator's counter holds it:
   * non-zero exactly when some signature advertises the name.
   */
  function CountMatches(functions: seq<string>, name: string): (n: nat)
    requires name != []
    ensures n <= |functions|
    ensures n > 0 <==> Advertises(functions, name)
  {
    if functions == [] then 0
    else
      var last := functions[|functions| - 1];
      AdvertisesSnoc(functions, name);
      CountedIff(last, name);
      CountMatches(functions[..|functions| - 1], name) + (if Counted(last, name) then 1 else 0)
  }

  /** A signature counts exactly when the name occurs in it at an index above 0. */
  lemma CountedIff(signature: string, name: string)
    requires name != []
    ensures Counted(signature, name) <==> HasLateOccurrence(signature, name)
  {
  }

  /** A list advertises the name iff its prefix does or its last signature does. */
  lemma AdvertisesSnoc(functions: seq<string>, name: string)
    requires functions != []
    ensures Advertises(functions, name) <==>
      Advertises(functions[..|functions| - 1], name) ||
      HasLateOccurrence(functions[|functions| - 1], name)
  {
  }

  /**
   * `verifyExistFunction`: counts the advertised signatures in which
   * `strripos` finds the name, and answers whether the count is non-zero.
   */
  method VerifyExistFunction(functions: seq<string>, name: string) returns (found: bool)
    requires name != []
    ensures found <==> Advertises(functions, name)
  {
    var methodExist: nat := 0;
    for i := 0 to |functions|
      invariant methodExist == CountMatches(functions[..i], name)
    {
      assert functions[..i + 1][..i] == functions[..i];
      if Truthy(Position(StrRiPos(functions[i], name))) {
        methodExist := methodExist + 1;
      }
    }
    assert functions[..|functions|] == functions;
    found := if !Truthy(Int(methodExist)) then false else true;
  }

  /** A signature that holds the name only at index 0, or not at all, never counts. */
  lemma MatchAtStartIgnored(signature: string, name: string)
    requires name != []
    requires forall i: nat :: 0 < i ==> !OccursAt(signature, name, i)
    ensures !Counted(signature, name)
  {
  }

  /** A signature shorter than the name never counts. */
  lemma ShortSignatureIgnored(signature: string, name: string)
    requires name != [] && |signature| < |name|
    ensures !Counted(signature, name)
  {
  }

  /** The answer does not depend on the order of the advertised signatures. */
  lemma AdvertisesPermutation(fs1: seq<string>, fs2: seq<string>, name: string)
    requires multiset(fs1) == multiset(fs2)
    ensures Advertises(fs1, name) <==> Advertises(fs2, name)
  {
    if Advertises(fs1, name) {
      var k :| 0 <= k < |fs1| && HasLateOccurrence(fs1[k], name);
      assert fs1[k] in multiset(fs2);
      var j :| 0 <= j < |fs2| && fs2[j] == fs1[k];
    }
    if Advertises(fs2, name) {
      var k :| 0 <= k < |fs2| && HasLateOccurrence(fs2[k], name);
      assert fs2[k] in multiset(fs1);
      var j :| 0 <= j < |fs1| && fs1[j] == fs2[k];
    }
  }

  /** Advertising more signatures never turns a found operation into a missing one. */
  lemma AdvertisesAppend(functions: seq<string>, more: seq<string>, name: string)
    requires Advertises(functions, name)
    ensures Advertises(functions + more, name)
  {
    var k :| 0 <= k < |functions| && HasLateOccurrence(functions[k], name);
    assert (functions + more)[k] == functions[k];
  }

  /** The answer is blind to the letter case of the name and of every signature. */
  lemma AdvertisesIgnoresCase(fs1: seq<string>, fs2: seq<string>, n1: string, n2: string)
    requires n1 != [] && SameIgnoringCase(n1, n2)
    requires |fs1| == |fs2| && forall k :: 0 <= k < |fs1| ==> SameIgnoringCase(fs1[k], fs2[k])
    ensures Advertises(fs1, n1) <==> Advertises(fs2, n2)
  {
    assert n2 != [];
    forall k | 0 <= k < |fs1|
      ensures HasLateOccurrence(fs1[k], n1) <==> HasLateOccurrence(fs2[k], n2)
    {
      StrRiPosIgnoresCase(fs1[k], fs2[k], n1, n2);
      CountedIff(fs1[k], n1);
      CountedIff(fs2[k], n2);
    }
  }

  /** A name inside a longer operation name is found: `list` matches `listarClientes`. */
  lemma PartialNameFound()
    ensures Advertises(["string listarClientes(string)"], "LIST")
  {
    var sigs := ["string listarClientes(string)"];
    assert OccursAt(sigs[0], "LIST", 7);
    assert HasLateOccurrence(sigs[0], "LIST");
  }

  /** A signature that is exactly the name matches only at index 0 and is not found. */
  lemma WholeNameAtStartNotFound()
    ensures !Advertises(["listarClientes"], "listarclientes")
  {
  }

  /**
   * A signature in the form `__getFunctions` prints, `<return type> <name>(<params>)`,
   * always advertises its own operation name: the name sits at index |ret| + 1, above 0.
   */
  lemma AdvertisedOperationFound(functions: seq<string>, k: nat, ret: string, name: string, params: string)
    requires name != [] && k < |functions|
    requires functions[k] == ret + " " + name + "(" + params + ")"
    ensures Advertises(functions, name)
  {
    var sig := functions[k];
    assert sig[|ret| + 1..|ret| + 1 + |name|] == name;
    assert OccursAt(sig, name, |ret| + 1);
    assert HasLateOccurrence(sig, name);
  }

  /** A name found only at the start of a signature, here its return type, is rejected. */
  lemma ReturnTypeNameNotFound()
    ensures !Advertises(["int f()"], "int")
  {
    var sig := "int f()";
    forall i: nat | 0 < i ensures !OccursAt(sig, "int", i) {
      if i <= 4 {
        assert Lower(sig[i]) != Lower("int"[0]) || Lower(sig[i + 1]) != Lower("int"[1]);
      }
    }
    MatchAtStartIgnored(sig, "int");
    CountedIff(sig, "int");
  }

  // ---------------------------------------------------------------------------
  // The data source
  // ---------------------------------------------------------------------------

  class SoapDataSource {
    /** The connection settings. */
    var config: Config
    /** Connection details kept for debugging; the WSDL URL is under `localhost`. */
    var debug: map<string, string>
    /** Whether the last connection attempt built a client. */
    var connected: bool
    /** The last client built, if any. */
    var connection: Option<Client>
    /** The calls made into the SOAP library so far. */
    ghost var trace: seq<Event>

    /**
     * A connected source holds the client built from the WSDL URL and options of
     * its current settings. The settings are a public field that may be replaced
     * at any time, so this is not required on entry: `Connect` and `Query`
     * re-establish it.
     */
    ghost predicate HoldsClientForConfig()
      reads this
    {
      connected ==>
        connection == Some(Client(WsdlUrl(config), GetConfig(config))) &&
        LocalhostKey in debug && debug[LocalhostKey] == WsdlUrl(config)
    }

    constructor (config: Config)
      ensures HoldsClientForConfig()
      ensures this.config == config && debug == map[] && !connected
      ensures connection == None && trace == []
    {
      this.config := config;
      debug := map[];
      connected := false;
      connection := None;
      trace := [];
    }

    /**
     * `connect`: fails at once when the SOAP client class is missing;
     * otherwise marks the source disconnected, records the WSDL URL, and
     * builds a client from it, ending connected only if that succeeds.
     */
    method Connect(remote: Remote) returns (r: Result<bool>)
      modifies this
      ensures (remote.soapClientInstalled || old(HoldsClientForConfig())) ==> HoldsClientForConfig()
      ensures config == old(config)
      ensures !remote.soapClientInstalled ==>
        r == Failure(SoapClientNotInstalled) &&
        connected == old(connected) && connection == old(connection) &&
        debug == old(debug) && trace == old(trace)
      ensures remote.soapClientInstalled ==>
        var url, options := WsdlUrl(config), GetConfig(config);
        debug == old(debug)[LocalhostKey := url] &&
        trace == old(trace) + [Construct(url, options)] &&
        match remote.construct(url, options)
        case None =>
          r == Success(true) && connected && connection == Some(Client(url, options))
        case Some(fault) =>
          r == Failure(MissingConnection(fault)) && !connected &&
          connection == old(connection)
    {
      if !remote.soapClientInstalled {
        return Failure(SoapClientNotInstalled);
      }
      connected := false;
      debug := debug[LocalhostKey := WsdlUrl(config)];
      var url, options := debug[LocalhostKey], GetConfig(config);
      trace := trace + [Construct(url, options)];
      var fault := remote.construct(url, options);
      if fault.Some? {
        return Failure(MissingConnection(fault.value));
      }
      connection := Some(Client(url, options));
      connected := true;
      r := Success(connected);
    }

    /**
     * `query`: always reconnects first; then refuses a name the service does
     * not advertise before making any remote call; then calls the operation
     * and hands back its result, turning a fault into an invalid argument.
     */
    method Query(remote: Remote, name: string, params: Value := Array([])) returns (r: Result<Value>)
      requires name != []
      modifies this
      ensures (remote.soapClientInstalled || old(HoldsClientForConfig())) ==> HoldsClientForConfig()
      ensures config == old(config)
      ensures !remote.soapClientInstalled ==>
        r == Failure(SoapClientNotInstalled) && trace == old(trace) &&
        connected == old(connected) && connection == old(connection) && debug == old(debug)
      ensures remote.soapClientInstalled ==>
        var url, options := WsdlUrl(config), GetConfig(config);
        var client := Client(url, options);
        debug == old(debug)[LocalhostKey := url] &&
        match remote.construct(url, options)
        case Some(fault) =>
          r == Failure(MissingConnection(fault)) && !connected &&
          connection == old(connection) &&
          trace == old(trace) + [Construct(url, options)]
        case None =>
          connected && connection == Some(client) &&
          if !Advertises(remote.advertised(client), name) then
            r == Failure(FunctionNotExist(name)) &&
            trace == old(trace) + [Construct(url, options)]
          else
            var args := ArgumentList(params);
            trace == old(trace) + [Construct(url, options), SoapCall(client, name, args)] &&
            match remote.invoke(client, name, args)
            case Returned(v) => r == Success(v)
            case Fault(fault) => r == Failure(InvalidArgument(fault))
    {
      var connectResult := Connect(remote);
      if connectResult.Failure? {
        return Failure(connectResult.error);
      }
      var client := connection.value;
      var found := VerifyExistFunction(remote.advertised(client), name);
      if !found {
        return Failure(FunctionNotExist(name));
      }
      var args := ArgumentList(params);
      trace := trace + [SoapCall(client, name, args)];
      match remote.invoke(client, name, args)
      case Returned(v) =>
        r := Success(v);
      case Fault(fault) =>
        r := Failure(InvalidArgument(fault));
    }

    /** `isConnected`: whether the last connection attempt succeeded. */
    method IsConnected() returns (c: bool)
      ensures c == connected
    {
      c := connected;
    }
  }
}
