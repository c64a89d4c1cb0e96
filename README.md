# php-logger in Dafny

A model of the core of php-logger, a small PHP library that sends log messages
as UDP syslog datagrams.

The `Logger` holds an identity and an ordered list of adapters:
- the identity is a facility, a hostname, an app name and a stored severity;
- each level method (`emerg` … `debug`, `log`) fixes a severity;
- `_log` then hands the same six arguments (severity, facility, hostname, app name, timestamp, message) to every adapter's `write`.

A syslog adapter's `write` builds a BSD-style line, close to section 4.1 of RFC 3164:
- `<PRI>` comes first, where PRI is `facility * 8 + severity`, the PRI value of section 6.2.1 of RFC 5424;
- then the timestamp;
- then ` hostname` when the hostname is truthy in PHP's sense;
- then ` app:` when the app name is truthy;
- then a space and the message, after a byte filter that drops control and high bytes.

`send` opens a UDP socket to the adapter's server and port and writes the line as one datagram. It returns the line, or `ERROR: <errno> - <errstr>` when the socket does not open.

The repository has three copies of the adapter:
- `src/Adapter` is the current one. It computes PRI without any range check, and returns before sending when nothing is left of the message after cleaning.
- `src/Adapters` and `src/Syslog` hold the same older code twice. It is modelled once, as `LegacySyslogAdapter`. A row below that cites one copy holds equally for the other.
  - It clamps the facility into [0, 23] and the severity into [0, 7].
  - Its empty-message guard `count($msg) === 0` never fires, because PHP 7's `count` of a string is 1.
  - It replaces every truthy hostname with the literal `www.megafon.ru`.

Modules:
- `Wrappers` defines `Option`.
- `Php` models string truthiness, `empty`, and integer rendering with its parser. It also holds `IndexOf`, a character search that the hostname pattern is built on; the logger itself calls no such function.
- `AbstractAdapter` models both priority functions and the message filter.
- `SyslogAdapter` models the current line assembly.
- `LegacySyslogAdapter` models the older line assembly.
- `Transport` holds the adapter values, `send` and `write` with their socket outcome, and a `Network` object that records the datagrams sent.
- `Fqdn` models `isValidFQDN` and its regular expression. Its `Split` is a helper for an independent statement of a well-formed hostname, not a model of `explode`, which the logger does not call.
- `Logger` models the `Logger` class: constructor, getters, setters, the adapter list, `_log` and the level methods.

`Logger` has no severity threshold and no log-level setter: `_log` (src/Logger.php:163-172) never reads the severity stored by the constructor (src/Logger.php:44, 52), so every level method reaches every adapter.

The unit tests under tests/Unit and the class's own doc comment expect behaviour that the code does not have, and the model follows the code:
- The setters neither validate nor clamp; the tests expect exceptions and clamping (tests/Unit/LoggerTest.php:25-98).
- The default facility is 1 and the default severity 7 (src/Logger.php:50). The tests expect facility 16 (tests/Unit/LoggerTest.php:36). The class's doc comment names facility 16, local0 (src/Logger.php:23), and severity 5, Notice (src/Logger.php:37). The severity default has no visible effect, because the stored severity is never read.
- The older adapter prints `www.megafon.ru` where its tests expect `localhost`.
- The older adapter's tests expect a falsy result for the message "\x01\x02" (tests/Unit/Adapters/SyslogAdapterTest.php:105-118); the older code still sends `<0>date www.megafon.ru app: `, as `LegacySyslogAdapter.WriteControlBytes` states.

The message filter is PHP's `filter_var` with `FILTER_FLAG_STRIP_LOW | FILTER_FLAG_STRIP_HIGH`: STRIP_LOW drops bytes below 0x20 and STRIP_HIGH drops bytes 127 and above, so the model keeps exactly 0x20..0x7E. The timestamp comes from the caller of `_log` as an opaque string.

## Model

| member | source | states |
|---|---|---|
| AbstractAdapter.CalcPriority | src/Adapter/AbstractAdapter.php:15-17 | a valid pair gives a PRI in [0,191]; with a severity in [0,7] the PRI lies in its facility's block `8*facility .. 8*facility+7`, whatever the facility |
| AbstractAdapter.PriorityDecodes | src/Adapter/AbstractAdapter.php:15-17 | for facility in [0,23] and severity in [0,7], `facility*8+severity` lies in [0,191] and gives the pair back as p/8 and p%8 |
| AbstractAdapter.PriorityInjective | src/Adapter/SyslogAdapter.php:79-81 | with severities in [0,7], two (facility, severity) pairs with the same unclamped PRI are equal |
| AbstractAdapter.PriorityExamples | src/Adapter/SyslogAdapter.php:79-81 | (20,5) gives 165 and (0,0) gives 0 |
| AbstractAdapter.ClampFacility | src/Adapters/AbstractAdapter.php:15-16 | the facility the older adapters use is always in [0,23] |
| AbstractAdapter.ClampSeverity | src/Syslog/AbstractAdapter.php:9-10 | the severity the older adapters use is always in [0,7] |
| AbstractAdapter.ClampedPriority | src/Adapters/AbstractAdapter.php:13-21 | the older adapters' PRI is always in [0,191] |
| AbstractAdapter.ClampedAgreesInRange | src/Syslog/AbstractAdapter.php:5-13 | on a valid pair the clamped PRI equals the unclamped one |
| AbstractAdapter.ClampedOutOfRange | src/Adapters/AbstractAdapter.php:15-18 | a value below or above its range behaves exactly like the nearest bound |
| AbstractAdapter.ClampFirstChangesNothing | src/Syslog/AbstractAdapter.php:7-12 | clamping is idempotent: pre-clamped arguments give the same PRI |
| AbstractAdapter.ClampedDecodes | src/Adapters/AbstractAdapter.php:13-21 | the clamped PRI decodes to the clamped facility (p/8) and clamped severity (p%8) |
| AbstractAdapter.CleanMessage | src/Adapter/AbstractAdapter.php:26-28 | the cleaned message is no longer than the input and holds only bytes in 0x20..0x7E |
| AbstractAdapter.CleanConcat | src/Adapters/AbstractAdapter.php:30-32 | the filter works byte by byte: cleaning a concatenation concatenates the cleaned parts |
| AbstractAdapter.CleanChar | src/Syslog/AbstractAdapter.php:15-17 | a single byte survives exactly when it is in 0x20..0x7E |
| AbstractAdapter.CleanKeepsPrintable | src/Adapter/SyslogAdapter.php:90-92 | a message of kept bytes passes unchanged |
| AbstractAdapter.CleanIdempotent | src/Adapter/SyslogAdapter.php:90-92 | cleaning twice is cleaning once |
| AbstractAdapter.CleanEmptyIff | src/Adapter/AbstractAdapter.php:26-28 | the cleaned message is empty exactly when no byte of the input is kept |
| AbstractAdapter.CleanExample | src/Adapter/SyslogAdapter.php:90-92 | "\x12\|this\|is\|sparta\t\x01\x02" cleans to "\|this\|is\|sparta" |
| Php.NatToString | src/Adapter/SyslogAdapter.php:40 | `%s` of a natural number is a non-empty run of digits without a leading zero |
| Php.IntToString | src/Adapter/SyslogAdapter.php:40 | `%s` of an integer is digits with a leading '-' exactly when negative |
| Php.ParseIntToString | src/Adapter/SyslogAdapter.php:40 | the rendered PRI reads back to the same integer |
| SyslogAdapter.HostSegment | src/Adapter/SyslogAdapter.php:42-44 | the host segment is non-empty exactly when the hostname is truthy, and is then a space followed by the hostname |
| SyslogAdapter.AppSegment | src/Adapter/SyslogAdapter.php:46-48 | the app segment is non-empty exactly when the app name is truthy, and is then a space, the app name and ':' |
| SyslogAdapter.Header | src/Adapter/SyslogAdapter.php:40-48 | the header starts with '<', is at least the date plus 3 bytes long, and is exactly `<PRI>date` long when neither name is truthy |
| SyslogAdapter.Line | src/Adapter/SyslogAdapter.php:32-53 | no line exactly when the cleaned message is empty; a line starts with '<' |
| SyslogAdapter.ParsePriorityOfHeader | src/Adapter/SyslogAdapter.php:40 | the PRI can be read back from `<PRI>` whatever follows it |
| SyslogAdapter.LineSkipsIff | src/Adapter/SyslogAdapter.php:34-38 | `write` sends nothing exactly when the message holds no byte the filter keeps |
| SyslogAdapter.LinePriority | src/Adapter/SyslogAdapter.php:32-40 | a sent line carries `facility*8+severity` unclamped; on a valid pair the line's PRI decodes back to it |
| SyslogAdapter.LineEndsWithMessage | src/Adapter/SyslogAdapter.php:50 | a sent line ends with a space and the cleaned message |
| SyslogAdapter.LineFalsyNames | src/Adapter/SyslogAdapter.php:42-48 | a falsy hostname or app name ("" or "0") leaves no segment |
| SyslogAdapter.LineAroundHostname | src/Adapter/SyslogAdapter.php:40-50 | with a truthy hostname, the line is `<PRI>date `, the hostname, then the app segment and the message |
| SyslogAdapter.LineKeepsHostname | src/Adapter/SyslogAdapter.php:42-44 | distinct truthy hostnames give distinct lines |
| SyslogAdapter.LinePrintable | src/Adapter/SyslogAdapter.php:32-53 | with printable date, hostname and app name, every byte of the line is printable |
| SyslogAdapter.HeaderBoth | src/Adapter/SyslogAdapter.php:40-48 | header `<0>date localhost app:` with both names |
| SyslogAdapter.HeaderNoHostname | src/Adapter/SyslogAdapter.php:40-48 | header `<0>date app:` with an empty hostname |
| SyslogAdapter.HeaderNoApp | src/Adapter/SyslogAdapter.php:40-48 | header `<0>date localhost` with an empty app name |
| SyslogAdapter.HeaderNeither | src/Adapter/SyslogAdapter.php:40-48 | header `<0>date` with both empty |
| SyslogAdapter.WriteExample | src/Adapter/SyslogAdapter.php:32-53 | severity 0, facility 0, "localhost", "app" and a printable message give `<0>date localhost app: message` |
| SyslogAdapter.WriteSkipsControlBytes | src/Adapter/SyslogAdapter.php:34-38 | the message "\x01\x02" sends nothing |
| LegacySyslogAdapter.Count | src/Adapters/SyslogAdapter.php:30 | `count` of a string is never 0 under PHP 7, so the guard cannot fire |
| LegacySyslogAdapter.Line | src/Adapters/SyslogAdapter.php:26-48 | a line is always built, and it starts with '<' |
| LegacySyslogAdapter.LineShape | src/Syslog/SyslogAdapter.php:14-36 | the line is `<` + the clamped PRI + `>` + date, host segment for `www.megafon.ru`, app segment, a space and the cleaned message |
| LegacySyslogAdapter.AlwaysSends | src/Adapters/SyslogAdapter.php:26-32 | the `count` guard is dead: every write builds a line, ending in a space when nothing survived cleaning |
| LegacySyslogAdapter.LinePriority | src/Syslog/SyslogAdapter.php:14-22 | the line's PRI is the clamped value, in [0,191], decoding to the clamped pair |
| LegacySyslogAdapter.HostnameIgnored | src/Adapters/SyslogAdapter.php:36-39 | any two truthy hostnames give the same line |
| LegacySyslogAdapter.FalsyHostnameOmitted | src/Syslog/SyslogAdapter.php:24-27 | a falsy hostname gives no host segment |
| LegacySyslogAdapter.AgreesWithCurrent | src/Adapters/SyslogAdapter.php:26-48 | where the current adapter sends and the pair is valid, the older one sends the same line with a truthy hostname replaced by `www.megafon.ru` |
| LegacySyslogAdapter.SendsWhatCurrentSkips | src/Syslog/SyslogAdapter.php:18-20 | where the current adapter stays silent, the older one still sends, with an empty message |
| LegacySyslogAdapter.HeaderOverridden | src/Adapters/SyslogAdapter.php:34-43 | the header built with the override name `www.megafon.ru` in place of a truthy hostname, PRI 0 and app name "app" is `<0>date www.megafon.ru app:` |
| LegacySyslogAdapter.LineForTestArguments | src/Adapters/SyslogAdapter.php:26-48 | severity 0, facility 0, "localhost" and "app" give `<0>date www.megafon.ru app: ` followed by the cleaned message, for any date and message |
| LegacySyslogAdapter.WriteExample | src/Adapters/SyslogAdapter.php:26-48 | severity 0, facility 0, "localhost", "app" and a printable message give `<0>date www.megafon.ru app: message` |
| LegacySyslogAdapter.WriteControlBytes | src/Syslog/SyslogAdapter.php:14-36 | the message "\x01\x02" is still sent, as `<0>date www.megafon.ru app: ` |
| Transport.Payload | src/Adapters/SyslogAdapter.php:26-48 | every line handed to `send` starts with '<'; the older adapter always hands one over |
| Transport.SendResult | src/Adapter/SyslogAdapter.php:58-69 | on an open socket `send` returns the message; on failure its result starts with "ERROR: " |
| Transport.Emitted | src/Syslog/SyslogAdapter.php:38-49 | a write puts at most one datagram on the wire, to the adapter's own server and port, carrying the adapter's line |
| Transport.EmittedPriority | src/Adapter/SyslogAdapter.php:32-52 | a datagram an adapter sends carries that adapter's PRI: unclamped for the current adapter, clamped for the older one |
| Transport.Send | src/Adapter/SyslogAdapter.php:58-69 | on an open socket, appends one datagram carrying the message and returns the message; otherwise returns `ERROR: errno - errstr` and sends nothing |
| Transport.Write | src/Adapters/SyslogAdapter.php:26-64 | returns nothing and sends nothing when the adapter's guard fires; otherwise returns `send`'s result and appends exactly the datagrams `Emitted` names |
| Transport.DefaultEndpoint | src/Syslog/SyslogAdapter.php:9-12 | adapters built without arguments send to 127.0.0.1:514 |
| Transport.WriteResultReportsOutcome | src/Adapter/SyslogAdapter.php:58-69 | `write`'s result equals the line exactly when the socket opened; a failure starts with "ERROR: " |
| Transport.EmittedAtMostOne | src/Syslog/SyslogAdapter.php:38-49 | a write sends at most one datagram, exactly when a line is built and the socket opens, to the adapter's endpoint with the line |
| Transport.EmittedIgnoresSeverity | src/Adapter/SyslogAdapter.php:32-53 | the severity never decides whether a write sends |
| Fqdn.IsValidFQDN | src/Logger.php:111-113 | an accepted name is never PHP-empty and is 1 to 255 bytes long (254 plus one trailing newline) |
| Fqdn.MatchesLabelsIff | src/Logger.php:112 | the repeated `label.` group followed by a TLD matches exactly when the dot-separated pieces are labels ending in a TLD of two or more letters |
| Fqdn.MatchesLabelsEndsAlpha | src/Logger.php:112 | whatever the label pattern matches has at least 4 characters and ends with a letter |
| Fqdn.IsValidFQDNIff | src/Logger.php:111-113 | without a trailing newline: accepted exactly when 1 to 254 characters long with at least two dot-separated pieces, the last a TLD, each other a 1-63 character label starting with a letter and not ending with '-' |
| Fqdn.TrailingNewlineAccepted | src/Logger.php:112 | PCRE's `$` lets one trailing "\n" through: `s + "\n"` is accepted exactly when `s` is |
| Fqdn.ValidFQDNBounds | src/Logger.php:111-113 | an accepted name is 4 to 255 characters long and contains a dot |
| Fqdn.ValidFQDNStartsAlpha | src/Logger.php:112 | an accepted name starts with a letter |
| Fqdn.LabelDotTldAccepted | src/Logger.php:112 | a label, a dot and a TLD within 254 characters are accepted |
| Fqdn.AcceptedExample | src/Logger.php:111-113 | "awesome-site.ru" is accepted |
| Fqdn.RejectedNotAlpha | src/Logger.php:112 | "127.0.0.1" and "> invalid" are refused: their first character is not a letter |
| Fqdn.RejectedNoDot | src/Logger.php:111-113 | "" (PHP-empty) and "localhost" (no dot) are refused |
| Logger.ResolveHostname | src/Logger.php:56-64 | a non-empty hostname is kept; the result is empty only when the environment variable chosen (COMPUTERNAME first, then HOSTNAME) is set to "" |
| Logger.ResolveApp | src/Logger.php:66-68 | the app name is never empty; a non-empty one is kept, an empty one becomes "php" |
| Logger.Fanout | src/Logger.php:169-171 | every datagram of a dispatch is one that some adapter of the list sends for the event |
| Logger.FanoutSnoc | src/Logger.php:169-171 | dispatching to one more adapter appends exactly that adapter's datagrams |
| Logger.FanoutAppend | src/Logger.php:169-171 | dispatching to a concatenated list is dispatching to each part in turn |
| Logger.FanoutAtMost | src/Logger.php:169-171 | a dispatch sends at most one datagram per adapter |
| Logger.FanoutEach | src/Logger.php:163-172 | when every adapter builds a line and every socket opens, datagram i is adapter i's line sent to adapter i's endpoint: no adapter is skipped and the order is the list order |
| Logger.FanoutIgnoresSeverity | src/Logger.php:163-172 | the number of datagrams does not depend on the severity: there is no threshold |
| Logger.FanoutPriorities | src/Logger.php:163-172 | every datagram of a dispatch is one that one of the logger's adapters emitted for the event, goes to that adapter's endpoint and carries that adapter's PRI: `facility*8+severity` from a current adapter, the clamped value from an older one |
| Logger.Logger.constructor | src/Logger.php:50-69 | stores facility and severity, resolves hostname and app name, starts with no adapters |
| Logger.Logger.GetFacility | src/Logger.php:89-91 | returns the stored facility |
| Logger.Logger.GetHostname | src/Logger.php:93-95 | returns the stored hostname |
| Logger.Logger.GetApp | src/Logger.php:97-99 | returns the stored app name |
| Logger.Logger.GetAdapters | src/Logger.php:119-121 | returns the stored adapter list |
| Logger.Logger.SetFacility | src/Logger.php:71-75 | replaces only the facility with the argument, unvalidated, and returns the logger itself |
| Logger.Logger.SetHostname | src/Logger.php:77-81 | replaces only the hostname, unvalidated, and returns the logger itself |
| Logger.Logger.SetApp | src/Logger.php:83-87 | replaces only the app name, unvalidated, and returns the logger itself |
| Logger.Logger.ClearAdapters | src/Logger.php:115-121 | the adapter list becomes empty; the other fields stay |
| Logger.Logger.AddAdapter | src/Logger.php:123-125 | appends at the end: one longer, earlier adapters in place, other fields unchanged |
| Logger.Logger.Dispatch | src/Logger.php:163-172 | appends to the network exactly the datagrams of every adapter in list order, all for the same event; the logger is unchanged |
| Logger.Logger.Log | src/Logger.php:127-129 | dispatches with severity 7 |
| Logger.Logger.Emerg | src/Logger.php:131-133 | dispatches with severity 0 |
| Logger.Logger.Alert | src/Logger.php:135-137 | dispatches with severity 1 |
| Logger.Logger.Critical | src/Logger.php:139-141 | dispatches with severity 2 |
| Logger.Logger.Error | src/Logger.php:143-145 | dispatches with severity 3 |
| Logger.Logger.Warning | src/Logger.php:147-149 | dispatches with severity 4 |
| Logger.Logger.Notice | src/Logger.php:151-153 | dispatches with severity 5 |
| Logger.Logger.Info | src/Logger.php:155-157 | dispatches with severity 6 |
| Logger.Logger.Debug | src/Logger.php:159-161 | dispatches with severity 7 |

## Left out

- The socket itself (`fsockopen`, `fwrite`, `fclose`) is an `Opener` function from the endpoint to an outcome. Partial writes, DNS and timeouts are not modelled.
- The clock: `date('M j H:m:s')` in `_log` is replaced by a timestamp parameter, and its format is not modelled.
- The environment: `$_ENV["COMPUTERNAME"]` and `$_ENV["HOSTNAME"]` are passed to the constructor as optional strings.
- `fqdnCheck` (src/Logger.php:101-109) is not modelled. It is never called, it relies on `filter_var` IP validation, and it reads a bare constant where a variable was meant.
- AbstractAdapter.CleanMessage: models only the strip-low and strip-high part of `FILTER_SANITIZE_STRING`. The HTML-tag stripping and quote encoding of that filter are left out. So `AbstractAdapter.CleanConcat`, `AbstractAdapter.CleanKeepsPrintable`, `AbstractAdapter.CleanEmptyIff` and `SyslogAdapter.LineSkipsIff` hold for PHP's filter only on messages without `<`, `>` or quotes: PHP cleans "<b>" to nothing and sends no line, where the model keeps and sends it.
- LegacySyslogAdapter.Count: models PHP 7, where `count` of a string is 1. From PHP 7.2 on, that call also raises an E_WARNING first; where warnings become exceptions (PHPUnit's default configuration), the older `write` throws at src/Adapters/SyslogAdapter.php:30 instead of sending. Under PHP 8 the same call throws a TypeError.
- Facility, severity and the names are modelled as unbounded integers and strings. PHP's overflow of integers to floats, and non-integer or non-string arguments, are left out.
- The getters' spurious `$val` parameter (src/Logger.php:89-99) is dropped; the getters read a field.
- src/Adapter/AdapterInterface.php has no behaviour. The `Adapter` datatype plays its role.
- `addAdapter` declares its parameter as `AbstractAdapter` in a file without a namespace, so PHP admits only the older adapters, whose base class is the global `AbstractAdapter`; adding the current adapter, whose base class is `Dalee\Logger\Adapter\AbstractAdapter`, is a TypeError. The model's `Logger` accepts any adapter of the interface's shape, both kinds, and the lemmas about dispatch cover lists holding current adapters that PHP would refuse.
- Calls to `write` are observed only through the datagrams they send. A write that sends nothing leaves no trace.
- test.php is a demonstration script and is not part of this model.
- The unit tests expect behaviour the code does not have. None of it is modelled:
  - facility clamping in `Logger`;
  - a default facility of 16;
  - exceptions for invalid hostnames and app names;
  - "localhost" in the older adapter's output;
  - a falsy result from the older adapter for a message of control bytes only;
