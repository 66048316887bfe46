# SoapSource in Dafny

A model of `SoapSource`, a CakePHP 2 data source that talks to a SOAP web service
through PHP's `SoapClient`. The model keeps the data source's own decisions and treats
the SOAP library as an oracle (`SoapSource.Remote`). The oracle says whether the
`SoapClient` class exists. It says whether building a client for a WSDL URL and options
throws a `SoapFault`, and with which fault string. It gives the signatures
`__getFunctions` advertises and the outcome of `__soapCall`.

- `php.dfy`, module `Php`: the PHP primitives the data source depends on. It covers
  dynamically typed values and their truthiness, ASCII case folding, and `strripos`,
  the case-insensitive search for the last occurrence of a needle.
- `soap_source.dfy`, module `SoapSource`:
  - the WSDL URL `localhost + "/" + service + "?wsdl"`;
  - the options array handed to `SoapClient` (`GetConfig`);
  - the operation-existence validator (`VerifyExistFunction`), a counting loop proved
    against a specification predicate;
  - the class `SoapDataSource` with its `connected`, `connection` (`_connection`) and
    `debug` fields, and `Connect`, `Query` and `IsConnected`.

  A ghost `trace` field records each client construction and each remote call in order.
  With it, `Query`'s contract states three things. It always reconnects. An
  unadvertised name is refused before any remote call. A remote fault becomes an
  `InvalidArgument` error carrying the same fault string.

The validator does not do a plain substring test. A signature counts only when
`strripos` returns a truthy position. PHP reads position 0 as false, so a signature
counts exactly when the LAST case-insensitive occurrence of the name is at an index
above 0 (`CountedIff`). This differs from "some signature contains the name" only for
a name found solely at index 0 of every signature that contains it. An example is the
return type `int` in `int f()` (`ReturnTypeNameNotFound`). It never rejects the exact name
of an advertised operation. `__getFunctions` prints each signature as
`<return type> <name>(<params>)`, so the operation's own name sits at index
|return type| + 1. `AdvertisedOperationFound` proves that such a name is always found.
This keeps the promise of the doc comment at SoapSource.php:185.

## Model

| member | source | states |
|---|---|---|
| `Php.Truthy` | SoapSource.php:167 | PHP's conversion to boolean: a value is truthy iff it is none of `null`, `false`, `0`, `""`, `"0"` and the empty array; this decides the `cache` choice at :167, the credential test at :169, the test at :191 and the result at :196 |
| `Php.Lower` | SoapSource.php:191 | the ASCII case folding inside `strripos`: an upper-case letter maps to its lower-case letter, 32 code points above it; every other character is kept |
| `Php.Position` | SoapSource.php:191 | the value `strripos` returns is truthy iff a position was found and it is above 0 |
| `Php.LastOccurrenceFrom` | SoapSource.php:191 | the result is the highest index at or below the bound where the needle occurs case-insensitively, or none when there is no such index |
| `Php.StrRiPos` | SoapSource.php:191 | `strripos` returns an occurrence with no occurrence after it, and returns none iff the needle occurs nowhere (including when it is longer than the haystack) |
| `Php.OccursAtIgnoresCase` | SoapSource.php:191 | whether the needle occurs at an index does not change when either string changes letter case |
| `Php.StrRiPosIgnoresCase` | SoapSource.php:191 | `strripos` returns the same result when the haystack or the needle changes letter case |
| `SoapSource.WsdlUrl` | SoapSource.php:113 | the URL is the base URL, then one `/`, then the service name, then `?wsdl`, with the length of exactly those parts |
| `SoapSource.ServiceOf` | SoapSource.php:113 | a service name recovered from a URL rebuilds that URL with the same base URL |
| `SoapSource.WsdlUrlRoundTrip` | SoapSource.php:113 | given the base URL, the WSDL URL gives back exactly the configured service name |
| `SoapSource.HasCredentials` | SoapSource.php:169 | the credential test: true iff neither `login` nor `password` is a falsy value |
| `SoapSource.GetConfig` | SoapSource.php:164-177 | with both credentials truthy, the options hold exactly `login` and `password`; otherwise they hold exactly compression ACCEPT+GZIP, warning off, and the DISK cache iff `cache` is truthy, else NONE |
| `SoapSource.CredentialsDropDefaults` | SoapSource.php:169-174 | with credentials, the compression, warning and cache keys are absent and the cache flag has no effect on the options |
| `SoapSource.PartialCredentialsIgnored` | SoapSource.php:165-169 | with a missing or falsy credential, the options contain no credential and depend only on the truthiness of `cache` |
| `SoapSource.CountMatches` | SoapSource.php:189-194 | the counter never exceeds the number of advertised signatures, and it is non-zero iff some signature has an occurrence of the name past index 0 |
| `SoapSource.Counted` | SoapSource.php:191 | the test `if(strripos($item, $function))`: true iff `strripos` found the name at a position above 0, which needs a signature longer than the name |
| `SoapSource.CountedIff` | SoapSource.php:191 | a signature is counted iff the name occurs in it case-insensitively at some index above 0 |
| `SoapSource.AdvertisesSnoc` | SoapSource.php:190-194 | a list of signatures advertises the name iff the list without its last signature does or that last signature does; this is one step of the foreach |
| `SoapSource.VerifyExistFunction` | SoapSource.php:187-197 | the counting loop answers true iff some advertised signature has its last case-insensitive occurrence of the name at an index above 0 |
| `SoapSource.MatchAtStartIgnored` | SoapSource.php:191 | a signature whose only occurrence is at index 0, or which has none, is not counted |
| `SoapSource.ShortSignatureIgnored` | SoapSource.php:191 | a signature shorter than the name is not counted |
| `SoapSource.AdvertisesPermutation` | SoapSource.php:190-196 | reordering the advertised signatures does not change the answer |
| `SoapSource.AdvertisesAppend` | SoapSource.php:190-196 | advertising more signatures never turns true into false |
| `SoapSource.AdvertisesIgnoresCase` | SoapSource.php:191 | changing the letter case of the name or of any signature does not change the answer |
| `SoapSource.PartialNameFound` | SoapSource.php:191 | `LIST` is found in `string listarClientes(string)`: partial names match, ignoring case |
| `SoapSource.WholeNameAtStartNotFound` | SoapSource.php:191 | a signature that is exactly the name (match only at index 0) is not found; `__getFunctions` never prints such a signature, so this is a fact about the validator alone |
| `SoapSource.AdvertisedOperationFound` | SoapSource.php:185-196 | whenever some advertised signature has the form `<return type> <name>(<params>)`, the validator finds `name`, as the doc comment promises |
| `SoapSource.ReturnTypeNameNotFound` | SoapSource.php:191 | `int` is not found in `int f()`: a name occurring only at the start of a signature is rejected |
| `SoapSource.SoapDataSource.constructor` | SoapSource.php:92-94 | a new data source holds the given settings, is not connected, has no client and an empty debug array |
| `SoapSource.ArgumentList` | SoapSource.php:151 | the argument list handed to `__soapCall` is an array whose one entry, at key 0, is the parameters |
| `SoapSource.SoapDataSource.Connect` | SoapSource.php:104-130 | callable in any state, including after the settings changed. Without `SoapClient`: fails with the CakeException and changes nothing. Otherwise: records the WSDL URL in `debug`, builds one client from that URL and `GetConfig`. If building succeeds, it ends connected, holds that client and returns true. If it faults, it fails with `MissingConnection` carrying the fault string, ends disconnected and keeps the old client. When `SoapClient` exists, a connected source afterwards holds the client built from its current settings |
| `SoapSource.SoapDataSource.Query` | SoapSource.php:143-155 | callable in any state; the parameters default to the empty array. It always reconnects first and passes on a connect failure: without `SoapClient` it changes nothing, and on a construction fault it ends disconnected and keeps the old client. Then, if the validator rejects the name, it fails with `FunctionNotExist` and makes no remote call. Otherwise it makes exactly one remote call, passing the parameters wrapped in a one-entry argument list, and returns its value, or fails with `InvalidArgument` carrying the fault string |
| `SoapSource.SoapDataSource.IsConnected` | SoapSource.php:205-207 | returns the `connected` field |

## Left out

- The `SoapClient` library: building a client, `__getFunctions` and `__soapCall`. These
  are foreign calls into a network library. They are fields of the `Remote` oracle, and
  only their outcomes are modelled.
- The `class_exists('SoapClient')` environment check is the oracle's
  `soapClientInstalled` flag.
- `error_reporting(0)` in `connect` is left out. It only changes global diagnostics.
- Exception messages: the `__d` translation and message formatting are left out. Errors
  are datatype values that keep the information the source puts in them: the fault
  string and the function name. The `class` entry of the `MissingConnectionException`
  is left out. It is always the data source's own class.
- The parent `DataSource` class is not part of this model. This covers its constructor,
  the merging of the configuration with the defaults of `$config`, and `setConfig`.
  The constructor stores the given settings as they are, and `connected` starts false.
- The unused `function` configuration key is left out.
- The numeric values of the `SOAP_COMPRESSION_*` and `WSDL_CACHE_*` constants are left
  out. They are abstract enumeration values.
- `Php.Truthy`: PHP floats and objects are not part of `Php.Value`. So, for example,
  PHP's falsy `0.0` has no counterpart in the model. The configuration values and SOAP
  payloads here are modelled with the other value kinds.
- `localhost` and `service` are modelled as strings. PHP's conversion of other value
  types to strings in the concatenation is left out.
- `SoapSource.VerifyExistFunction`: requires a non-empty name. What `strripos` does with
  an empty needle depends on the PHP version. The same holds for `SoapSource.SoapDataSource.Query`.
- `Php.StrRiPos`: case folding is ASCII only, as in PHP 8.2 and later. Earlier versions
  fold according to the locale. PHP strings are bytes while the model works on
  characters. The truthiness of a position (zero or not) is the same either way.
- The concurrency hazard of sharing the overwritten `_connection` field between
  simultaneous queries is left out. PHP runs one request per process.
