# basic-site core, modelled in Dafny

`basic-site` is a small wrapper around Express that assembles a web server
from a few settings: a view engine, a page handler, a static directory, PWA
options, a body-size limit, a minify list and the two "extended" parser
flags. Its `index.js` also supplies the helpers every request goes through.
`clean` is a recursive input sanitiser for strings, arrays, objects, regular
expressions, symbols and BigInts. `varType` is a `typeof` that tells arrays,
`null` and regular expressions apart. `safeJoinPath` joins request-supplied
path pieces onto the site root. `normalizePort` turns the configured port
into what `listen` receives.

The model covers:

- the settings module and its setters: a `Config` class whose fields are the
  module-level variables, plus one specification function per setter;
- `clean` and `varType`, as functions over a closed `Value` datatype, with
  the `cleanStr`/`cleanArr`/`cleanObj`/`cleanType` loops as methods;
- `safeJoinPath`, as a method with its loop, over a model of the POSIX
  `path.normalize`, `path.join` and `path.resolve`;
- `normalizePort`, `parseInt` on integers, the argument swap at the top of
  `start`, and the value handed to `server.listen`;
- what the request middleware does to the host name, the client address and
  the URL, and the `req.data` merge of the GET and POST handlers.

Strings are sequences of UTF-16 code units (`JsStrings.JsString`). Objects
are ordered property lists in which an assignment to an existing key
replaces its value in place (`JsValues.Put`). `Object.assign` copies left
to right (`JsValues.Assign`).

Modules:

| file | module | content |
|---|---|---|
| jsstrings.dfy | `JsStrings` | code units, filtering, prefixes, decimal digits |
| jsvalues.dfy | `JsValues` | values, `typeof`, `varType`, truthiness, property lists, assignment, `Object.assign` |
| sanitizer.dfy | `Sanitizer` | `clean` as specification functions and as the source's methods |
| sanitizer_properties.dfy | `SanitizerProperties` | what `clean` guarantees |
| posixpath.dfy | `PosixPath` | `normalize`, `join`, `resolve` |
| safejoin.dfy | `SafeJoin` | `safeJoinPath`, and a containment-checking variant |
| ports.dfy | `Ports` | the ToString conversion, `parseInt`, `Number`, `normalizePort`, the `start` swap, the listen port |
| request.dfy | `Request` | host, client address, URL and `req.data` handling |
| config.dfy | `SiteConfig` | the settings, the setters, `setRoot`, `extended`, and the configuration part of `start` |

## Model

| member | source | states |
|---|---|---|
| `JsValues.VarType` | index.js:874-883 | "array", "null", "regex" and "object" are returned exactly for arrays, `null`, regular expressions and plain objects; any other value gets its `typeof` |
| `JsValues.Put` | index.js:823 | after `o[k] = v`, `k` maps to `v`, every other key keeps its value, the key set gains `k`, and a new key is appended at the end |
| `JsValues.PutDistinct` | index.js:823 | an assignment never creates a second property with the same key |
| `JsValues.AssignLookup` | index.js:684 | after `Object.assign(target, source)` the keys are the union of both; a key of `source` holds the last value it has there, any other key keeps the target's value |
| `JsValues.AssignDistinct` | index.js:684 | `Object.assign` keeps an object free of repeated keys |
| `Sanitizer.CleanedStr` | index.js:793-809 | a string `cleanStr` returns is non-empty ASCII made only of printable characters, LF and CR |
| `Sanitizer.CleanStr` | index.js:793-809 | the character loop computes `CleanedStr` |
| `Sanitizer.CleanArr` | index.js:811-817 | the output has the input's length, and element `i` is the cleaned element `i` |
| `Sanitizer.CleanObj` | index.js:819-826 | the loop of assignments builds `CleanedObject` |
| `Sanitizer.CleanType` | index.js:828-869 | the dispatch on `varType` computes `Cleaned` |
| `SanitizerProperties.FastPathFilters` | index.js:794-797 | when stripping leaves ASCII, the result is the input's printable characters, LF and CR |
| `SanitizerProperties.SlowPathWithControlsFilters` | index.js:798-807 | with control characters allowed, an ASCII result of the loop is the printable characters, LF and CR |
| `SanitizerProperties.SlowPathFilters` | index.js:798-807 | without control characters, an ASCII result of the loop is the printable characters alone |
| `SanitizerProperties.CleanedStrFilters` | index.js:793-809 | a string that survives is the input filtered to printable characters, keeping LF and CR exactly when the fast path or `allowControlChars` applies |
| `SanitizerProperties.CleanedStrUnchanged` | index.js:794-797 | a non-empty string of printable ASCII, LF and CR comes back unchanged |
| `SanitizerProperties.CleanedStrIdempotent` | index.js:793-809 | cleaning a cleaned string changes nothing |
| `SanitizerProperties.WideKeptDropsString` | index.js:768-808 | one allow-listed non-ASCII unit (Latin-1 letter or typographic mark) anywhere makes the whole string `undefined` |
| `SanitizerProperties.PrintableStringSurvives` | index.js:798-807 | without such units, a string with at least one printable character is kept |
| `SanitizerProperties.NothingSafeIsUndefined` | index.js:794-808 | a string with nothing printable and no kept unit, the empty string included, becomes `undefined` |
| `SanitizerProperties.AccentedWordDropped` | index.js:801-808 | "café" becomes `undefined` |
| `SanitizerProperties.SnowmanRemoved` | index.js:798-807 | "a☃b" becomes "ab" |
| `SanitizerProperties.NewlineDroppedOnSlowPath` | index.js:798-807 | "a\n☃" becomes "a": on the slow path the line feed is lost |
| `SanitizerProperties.NewlineKeptWithControls` | index.js:801 | with `allowControlChars`, "a\n☃" becomes "a\n" |
| `SanitizerProperties.ControlStrippedNewlineKept` | index.js:794-796 | "a\n\x01" becomes "a\n" |
| `SanitizerProperties.UndefinedKeyIsClean` | index.js:822-823 | the key "undefined", which a dropped key turns into, is clean and cleans to itself |
| `SanitizerProperties.CleanedKeyIsFixed` | index.js:821-823 | every key `cleanObj` assigns is safe and cleans to itself |
| `SanitizerProperties.CleanedIsSafe` | index.js:765-872 | every string anywhere in a cleaned value is printable ASCII, LF or CR: keys, regex parts and symbol descriptions included |
| `SanitizerProperties.DecimalStringKept` | index.js:865 | the decimal text of a BigInt passes the character filter untouched |
| `SanitizerProperties.DecimalStringParses` | index.js:865 | `BigInt` of that text is the same BigInt |
| `SanitizerProperties.BigIntTextRoundTrip` | index.js:865 | filtering and then parsing the text of a BigInt gives it back |
| `SanitizerProperties.BigIntUnchanged` | index.js:864-865 | a BigInt is cleaned to itself |
| `SanitizerProperties.ScalarsPassThrough` | index.js:829-867 | `null`, `undefined`, numbers, booleans and BigInts pass through unchanged; a function becomes `undefined` |
| `SanitizerProperties.RegexWithWideSourceDropped` | index.js:850-857 | a regular expression whose source holds a dropped unit is removed entirely |
| `SanitizerProperties.SymbolDescriptionWrapped` | index.js:858-863 | a symbol with a clean description `d` becomes a symbol described by "Symbol(d)" (in general the description is `cleanStr("Symbol(d)")`) |
| `SanitizerProperties.SymbolGrowsEachPass` | index.js:858-863 | cleaning is not idempotent on symbols: each pass wraps the description again |
| `SanitizerProperties.PairKeys` | index.js:821-823 | the keys assigned are the cleaned input keys, "undefined" for a key that cleans to nothing |
| `SanitizerProperties.CleanedObjectDistinct` | index.js:819-826 | a cleaned object has no repeated keys |
| `SanitizerProperties.CleanedObjectSize` | index.js:819-826 | a cleaned object has no more properties than the input |
| `SanitizerProperties.CleanedObjectKeys` | index.js:819-826 | the keys of a cleaned object are the cleaned input keys |
| `SanitizerProperties.CleanedObjectValues` | index.js:819-826 | each key of a cleaned object holds the cleaned value the input has under that cleaned key |
| `SanitizerProperties.ObjectWithCleanKeys` | index.js:819-826 | an object whose keys are already clean keeps its keys, order and size, with each value cleaned |
| `SanitizerProperties.RenamedKeyLosesValue` | index.js:822-823 | a key that cleaning changes to a name the input lacks ends up holding `undefined` |
| `SanitizerProperties.RenamedKeyExample` | index.js:819-826 | `clean({"a\x01": 1})` is `{a: undefined}` |
| `SanitizerProperties.CleanedIdempotent` | index.js:828-869 | `clean` is idempotent on every value without a symbol |
| `SanitizerProperties.ItemsIdempotent` | index.js:811-817 | `cleanArr` is idempotent on arrays without symbols |
| `SanitizerProperties.CleanedObjectEntriesFixed` | index.js:819-826 | every property of a cleaned object has a key and a value that cleaning leaves alone |
| `SanitizerProperties.ObjectIdempotent` | index.js:819-826 | `cleanObj` is idempotent on objects without symbols |
| `PosixPath.ResolveIsCanonical` | index.js:159-161 | `resolve` returns "/" or "/" followed by non-empty segments other than "." and ".." |
| `PosixPath.ResolveIdempotent` | index.js:159-161 | resolving a resolved path changes nothing |
| `PosixPath.JoinPlain` | index.js:169 | joining a plain segment onto a resolved directory appends "/segment" and stays resolved |
| `SafeJoin.Rewrite` | index.js:169 | no '%' survives the rewrite of an argument |
| `SafeJoin.SafeJoinPath` | index.js:158-177 | the loop computes `SafeJoin`: the base, then each remaining argument joined on, `null` on a step that stays put or leaves the path's string prefix |
| `SafeJoin.JoinAllExtends` | index.js:168-174 | an accepted loop result starts with the path it began from and is longer by at least the number of arguments joined |
| `SafeJoin.SafeJoinExtendsBase` | index.js:158-177 | a non-null result starts with the base path and is strictly longer for each joined argument |
| `SafeJoin.TripleDotClimbs` | index.js:169 | the rewrite turns "..." into ".." and ".." into "." |
| `SafeJoin.SiblingPrefixAccepted` | index.js:163-170 | with root "/a/b", a first argument "/a/bX" (a sibling directory) is returned although it is not inside the root |
| `SafeJoin.SiblingExample` | index.js:158-177 | with root "/srv/app", `safeJoinPath("/srv/app2")` returns "/srv/app2" |
| `SafeJoin.JoinAllWithinStays` | index.js:168-174 | with a directory-containment test, the loop result lies inside the path it began from |
| `SafeJoin.SafeJoinWithinConfined` | index.js:158-177 | with containment tests in both places, a non-null result lies inside the resolved root |
| `SafeJoin.WithinLoopIsStricter` | index.js:168-174 | whatever the containment loop accepts, the loop as written accepts with the same result |
| `Ports.ToStr` | index.js:755 | the ToString conversion `parseInt` applies leaves a string as it is and throws for a symbol |
| `Ports.ParseIntDigits` | index.js:755 | `parseInt` of a run of digits is the number they spell |
| `Ports.ParseIntNegative` | index.js:755 | `parseInt` of "-" and digits is the negated number |
| `Ports.ParseIntDecimal` | index.js:755 | `parseInt(String(n))` is `n` for every integer |
| `Ports.ParseIntDecimalThen` | index.js:755 | `parseInt(String(n) + rest)` is `n` when `rest` does not start with a digit |
| `Ports.ParseIntPrefix` | index.js:755 | `parseInt` stops at the first unit that is not a digit |
| `Ports.NormalizePortNumber` | index.js:754-759 | a number comes back as itself when it is not negative and as `false` when it is |
| `Ports.NormalizePortDigits` | index.js:754-759 | a string of digits becomes the number it spells |
| `Ports.NormalizePortNotNumeric` | index.js:756 | a string with no digit after white space and sign is returned as it is |
| `Ports.NormalizePortKinds` | index.js:754-759 | it fails exactly when the ToString conversion throws (a symbol, also inside an array); otherwise the result is the input, `false`, or a number that is not negative |
| `Ports.NormalizePortNonNegative` | index.js:754-759 | any number it returns is not negative, even one passed through |
| `Ports.FalseNotNumeric` | index.js:756-758 | "false" does not parse, so `normalizePort(false)` is `false` itself |
| `Ports.NormalizePortIdempotent` | index.js:754-759 | `normalizePort` applied to its own result changes nothing |
| `Ports.ToStrSingleton` | index.js:755 | a one-element array reads as its element's text |
| `Ports.NormalizePortArray` | index.js:755 | `normalizePort([8080])` is 8080 |
| `Ports.NumericPortBecomesHandler` | index.js:182-186 | as written, a port string whose `Number` is truthy moves into the page-handler place and is loaded as pages |
| `Ports.PortStringExample` | index.js:180-190 | `start("8080", handler)` makes `handler` the port and "8080" the page module |
| `Ports.IntendedKeepsNumericPort` | index.js:182-186 | with the string test negated, a numeric port string stays the port and the handler stays the handler |
| `Ports.IntendedMovesModulePath` | index.js:182-186 | with the string test negated, a non-numeric string becomes the page handler and `pageHandler \|\| 3000` the port |
| `Ports.SwapsAgreeOffStrings` | index.js:182-186 | the two swaps agree on every first argument that is not a string |
| `Ports.ListenPortKinds` | index.js:719-749 | `listen` always receives a truthy value; a number it receives is positive |
| `Ports.ListenPortFromEnv` | index.js:719 | a PORT variable of digits, not all zero, is the port listened on, whatever `start` was given |
| `Ports.CleanedDigits` | index.js:719 | a string of digits comes through `clean` unchanged |
| `Request.CleanHost` | index.js:625 | the cleaned host holds no ':' and only `[\w\-./:]` characters |
| `Request.RequestHost` | index.js:619-633 | a host the middleware accepts holds no ':' |
| `Request.CleanHostIdempotent` | index.js:625 | the host clean-up is idempotent |
| `Request.HostDropsPort` | index.js:625 | "name:port" becomes "name" |
| `Request.HostDropsScheme` | index.js:625 | a leading "https://", in any letter case, is removed |
| `Request.StripBrackets` | index.js:643-651 | the result is the address without one leading '[' and without one trailing ']', each removed only where present |
| `Request.BracketedAddress` | index.js:644-645 | "[a]" becomes "a" |
| `Request.OneLayerOnly` | index.js:644-645 | "[[a]]" becomes "[a]" |
| `Request.BracketedLoopbackIsLocal` | index.js:643-659 | "[::1]" is recognised as the local machine |
| `Request.NormalizeUrl` | index.js:665-668 | a URL the middleware keeps is non-empty printable ASCII |
| `Request.DropsQuery` | index.js:665 | a query without a line terminator is dropped entirely |
| `Request.UrlWithQuery` | index.js:665-668 | a clean path with a query gives the path, with one trailing '/' removed unless the path is "/" |
| `Request.OneSlashOnly` | index.js:666-668 | only one trailing slash goes: "/a//" becomes "/a/" |
| `Request.MergeData` | index.js:679-697 | `req.data` is always an object after the merge |
| `Request.DataWins` | index.js:684 | after the merge the keys are those of the cleaned source plus the data's; a data key keeps the data's value, any other key has the cleaned source's |
| `Request.MergeDataDistinct` | index.js:684 | the merge keeps keys distinct when the data's are |
| `SiteConfig.Config.constructor` | index.js:33-155 | the module starts with the root found at load time and every other setting at its initial value |
| `SiteConfig.Config.SetViewEngine` | index.js:90-95 | the callback is stored; the options are replaced only by a plain object; nothing else changes |
| `SiteConfig.Config.SetPages` | index.js:98-104 | a string is loaded as a module path, anything else is stored as the handler; nothing else changes |
| `SiteConfig.Config.SetStaticPath` | index.js:107-116 | the static path becomes `StaticPathFor(root, path, path2)`; nothing else changes |
| `SiteConfig.Config.SetPWA` | index.js:120-133 | the PWA options become the nine defaulted options followed by `otherOpts`; nothing else changes |
| `SiteConfig.Config.SetExpressLimit` | index.js:137-143 | the limit becomes `LimitFor(limit)`; nothing else changes |
| `SiteConfig.Config.SetMinifyOpts` | index.js:147-155 | the minify list becomes `MinifyFor(type)`; nothing else changes |
| `SiteConfig.Config.Extended` | index.js:896-899 | both parser flags are set, a missing argument counting as `true`; nothing else changes |
| `SiteConfig.Config.SetRoot` | index.js:901-903 | on success the root is the cleaned resolved path without its last component; where the source throws, nothing changes |
| `SiteConfig.Config.Start` | index.js:180-274 | pages are set from the handler after the swap; the static path is mounted and replaced by the served directory; mounting throws for a route map whose directory is not a string and for any other root that is not a string, and otherwise `listen` is the port `start` passes on once the PWA, view-engine and middleware set-up it leaves out completes |
| `SiteConfig.CleanString` | index.js:110-112 | a clean non-empty string comes through `clean` as it is |
| `SiteConfig.CleanKey` | index.js:110 | the key `clean(path)` is stored under is safe |
| `SiteConfig.StaticPathClean` | index.js:107-116 | whatever is stored from the arguments is clean throughout |
| `SiteConfig.StaticRouteMap` | index.js:108-110 | two strings give a one-entry route map from the cleaned route to the cleaned directory |
| `SiteConfig.StaticRouteMapClean` | index.js:108-110 | that route map is clean throughout |
| `SiteConfig.StaticPathFallback` | index.js:113-114 | a falsy path gives "<root>/public" |
| `SiteConfig.StaticRouteMount` | index.js:246-257 | a route map of two clean strings is served at the route, from the directory made absolute under the root |
| `SiteConfig.StaticDirAbsolute` | index.js:241-269 | under an absolute root, `true`, `undefined` and a route map are served from an absolute directory |
| `SiteConfig.NonStringStaticRootRejected` | index.js:241-269 | a truthy static path that is neither `true`, a string nor an object (a number, array, regex, BigInt or symbol) makes `express.static` throw, so nothing is served and `listen` is not reached |
| `SiteConfig.DefaultStaticIsPublic` | index.js:241-245 | `static()` followed by `start` serves "<root>/public" at "/" |
| `SiteConfig.PwaDefaults` | index.js:121-130 | the object literal has the nine named options |
| `SiteConfig.PwaDefaultsDistinct` | index.js:121-130 | the nine option names are distinct |
| `SiteConfig.PwaKeys` | index.js:120-133 | the stored keys are the nine names plus the keys of `otherOpts` |
| `SiteConfig.PwaOtherWins` | index.js:131 | a key in `otherOpts` overrides, with the last value it has there |
| `SiteConfig.PwaDefaultAt` | index.js:122-129 | option `i` is the given value when truthy, else its default text |
| `SiteConfig.PwaDefaultsTruthy` | index.js:122-129 | each of the eight defaulted options that `otherOpts` does not override is truthy |
| `SiteConfig.PwaNoArguments` | index.js:120-133 | `setPWA()` stores the eight defaults in order and `icon_background: undefined` |
| `SiteConfig.LimitReadsBack` | index.js:138-139 | the limit stored for a number `n` is a string that reads back as `n` and ends in "mb" |
| `SiteConfig.LimitStoredSettles` | index.js:137-143 | the limit is stored as given exactly when it is not a number; what is stored is never a number, so storing it again changes nothing |
| `SiteConfig.MinifyFor` | index.js:147-155 | the minify setting is always an array |
| `SiteConfig.MinifyList` | index.js:147-155 | an array is kept, another truthy value is wrapped, anything else gives ['js', 'css']; the list is empty only when given empty |
| `SiteConfig.DropLastComponent` | index.js:902 | the result is a prefix of the input, and what is removed is one separator plus a last component |
| `SiteConfig.DropLastComponentOf` | index.js:902 | a directory, a separator and a last component lose exactly the component and that separator |
| `SiteConfig.SetRootParent` | index.js:901-903 | `setRoot("<dir>/<file>")` for a clean canonical path makes `<dir>` the root |
| `SiteConfig.ExtendedFlag` | index.js:896-899 | a flag is stored as given unless it is missing, when it is `true`; a stored flag is off exactly when a falsy value was passed explicitly; passing the stored flag again keeps it |

## Left out

- The Express application itself: helmet, the timeout handler, `/ping`, the rate limiter, forced SSL, compression, the route registration of `pages`, and the 404 handler (index.js:192-235, 594-603, 699-717). These are calls into libraries outside this model.
- The server lifecycle: `http.createServer`, the `error` and `listening` handlers, and console output (index.js:720-748). The model stops at the value handed to `listen`.
- The file system: creating the static directory (index.js:263-273) and everything between index.js:281 and index.js:591 (PWA file generation, minification, the view-engine set-up). All of it is I/O or library code.
- Finding the root at load time (index.js:33-41). It reads `require.main`, so the model takes the root as a constructor parameter.
- `generateRandToken` (index.js:761-763): it is randomness.
- `validator.isFQDN`, `validator.isIP`, the geo-IP lookup and `isBot`. Neither they nor the production-mode 400 answers that depend on them (index.js:620-629, 652-655, 661-662) are part of this model. The request functions model only the string processing around them. The missing-browser answer (index.js:635-639) is left out with them.
- `req.ip` as an array (index.js:642): `clean` keeps arrays as arrays, but the address model takes a string.
- `require(handler)`: loading a page module is recorded as `SiteConfig.Pages.Required(path)` and not performed.
- Floating point. `Value.Num` holds integers, so the model does not cover:
  - `-0`, `NaN` and infinities as values;
  - the exponent forms `String` uses from 1e21 up;
  - non-integer literals in `Number`;
  - the precision lost by `parseInt` on long digit runs.

  `Number` of a string accepts only the integer forms (with the empty string read as 0). Hexadecimal, binary, octal, exponent and "Infinity" spellings are taken as `NaN`.
- Sparse arrays, inherited properties, `__proto__`, the integer-key ordering of `Object.keys`, getters and custom `toString` methods. Objects are plain ordered property lists.
- Symbol values are identified by their description; the identity of distinct symbols is not modelled.
- `RegExp(source, flags)` in `clean` does not throw here. A source or flags that `RegExp` rejects is not modelled.
- `Ports.ToStr`: a function's text is its source code; one fixed text stands for every function.
- `SafeJoin.SafeJoinPath`: requires at least one argument. Called with none, the source throws from `resolve(undefined)`. `cwd`, the process's working directory, is a parameter and is absolute.
- `SiteConfig.Config.SetPWA`: requires `opts` to be an object or missing, and `otherOpts` to be an object, missing or `null`. Destructuring or spreading other primitives (a number, a string) is not modelled.
- `SiteConfig.Config.SetRoot`: takes the path as a string. The `toString` of other values is not modelled.
- `SiteConfig.Config.Start`: models the configuration part of `start` only. The static mount is reported as a `StaticMount` value rather than installed on an app. Exceptions raised by the PWA, view-engine and middleware set-up between the mount and `server.listen` (index.js:276-717) are not modelled, so `listen` is the value `start` passes on only when that code completes. Two such throws depend on settings the model holds: a truthy `pwa` icon that is not a string (`pwaIcon.replace` at index.js:291, or `join(staticPath, pwaIcon)` at index.js:297 when `icon_type` is given), and a view engine given as a string other than "regve", "inputmd" or "turbx" with no options, where index.js:577 reads a `views` binding that is not in scope there.
- The `GlobalOptions` flags are fields of `SiteConfig.Config`. How the body parsers use them is outside this model.

## Findings

| source | as written | input that shows it | evidently intended | confidence | as-written member | corrected member |
|---|---|---|---|---|---|---|
| index.js:163-170 | `safeJoinPath` confines paths with `startsWith` on strings, so a sibling directory whose name extends the root's passes the test | root "/srv/app", `safeJoinPath("/srv/app2")` returns "/srv/app2" | a path is accepted only when it is the root or lies inside it, "/" included | not executed | `SafeJoin.SiblingPrefixAccepted` | `SafeJoin.SafeJoinWithinConfined` |
| index.js:182-186 | `start` moves its first argument into the page-handler place when it is a string whose `Number(...)` is truthy, that is, when it is a numeric port | `start("8080", handler)`: `handler` becomes the port and "8080" is `require`d as the page module | a string that is not a number (a module path) is the page handler; a numeric string stays the port | not executed | `Ports.NumericPortBecomesHandler` | `Ports.IntendedKeepsNumericPort` |

`SafeJoin.SafeJoinPath` and `SiteConfig.Config.Start` keep the code as written, as the rest of the source relies on it. The corrected definitions are `SafeJoin.SafeJoinWithin` and `Ports.StartArgsIntended`. `SafeJoin.WithinLoopIsStricter` shows that the corrected loop only refuses more. `Ports.SwapsAgreeOffStrings` shows that the two swaps differ only on strings.
