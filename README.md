# libdns adapters for ddnss and Dinahosting, modelled in Dafny

Two libdns provider adapters translate between libdns records and vendor
HTTP interfaces:

- **ddnss** (`client.go`): an update of a TXT, A or AAAA record becomes a
  GET to `https://ddnss.de/upd.php` whose query carries the host, the API
  token, the record value under a type-specific parameter (`txt`, `ip`,
  `ipv6`), `verbose=true` and `txtm` (2 to clear, 1 to append). The host is
  the record's absolute name with one trailing dot removed and then every
  leading character of the set `_acme-challenge.` stripped (Go's
  `strings.TrimLeft` takes a character set, so `example.com` becomes
  `xample.com`; see `MainDomainOfPlainName`). An empty host is an error and
  no request is made. The reply page counts as a success when the first
  child of some `<font>` element, white space trimmed, starts with
  `Updated `.
- **Dinahosting** (`provider.go`): listing a zone sends
  `Domain_Zone_GetAll` with the zone (one trailing dot removed) as
  `domain`, and turns each returned zone record into one libdns record,
  in order, whose value is the first non-empty of destination hostname,
  IP, address and text. Appending, setting and deleting records are not
  implemented and always fail.

Modules: `GoStrings` (the `strings` functions used, with their
characterising lemmas), `UrlValues` (`url.Values` `Set`/`Add`), `Libdns`
(the record), `Wrappers` (Option/Result), `Ddnss` and `Dinahosting`.
The network is outside the model: what the server answered is a `Reply`
parameter, and the methods return the query they would send.

## Model

| member | source | states |
|---|---|---|
| GoStrings.TrimSuffix | client.go:134 | when the string ends with the suffix, the result followed by the suffix is the string; otherwise the string is returned unchanged |
| GoStrings.TrimLeft | client.go:135 | the result is the suffix left after the longest prefix of cutset characters: every removed character is in the cutset and the result is empty or starts outside it |
| GoStrings.TrimLeftCutsAtFirstOther | client.go:135 | those properties determine TrimLeft: it cuts exactly at the first non-cutset character |
| GoStrings.TrimSuffixDot | client.go:134 | TrimSuffix with "." removes exactly one trailing dot when there is one and leaves other strings unchanged |
| GoStrings.TrimSuffixDotOnce | provider.go:41 | a second trailing dot survives: only one is removed |
| GoStrings.TrimRight | client.go:122 | mirror of TrimLeft: a prefix of the input, every removed character in the cutset, and the result empty or ending outside it |
| GoStrings.TrimSpace | client.go:122 | the trimmed text neither starts nor ends with Unicode white space and is no longer than the input |
| GoStrings.TrimSpaceIsSlice | client.go:122 | TrimSpace returns a slice `s[a..b]` of its input with only white space before `a` and after `b` |
| GoStrings.TrimBothIsSlice | client.go:122 | trimming one cutset from both ends leaves a slice of the input with only cutset characters around it |
| GoStrings.TrimSpaceOfPadded | client.go:122 | text padded with white space on both sides trims back to exactly the text |
| GoStrings.TrimBothOfPadded | client.go:122 | trimming one cutset from both ends of a padded text gives back exactly the text |
| GoStrings.TrimLeftOfPadded | client.go:135 | TrimLeft removes a leading run of cutset characters up to the first other character |
| GoStrings.TrimRightOfPadded | client.go:122 | TrimRight removes a trailing run of cutset characters back to the last other character |
| UrlValues.Set | client.go:73-78 | the key then holds exactly the one given value; every other key is kept |
| UrlValues.Add | provider.go:39-43 | the value is appended to the values the key already held (a new key holds just that value); every other key is kept |
| GoStrings.Index | client.go:123 | the first occurrence of the substring, with no earlier occurrence, or -1 when it occurs nowhere |
| GoStrings.IndexZeroIffPrefix | client.go:123 | Index returns 0 exactly when the string starts with the substring |
| Ddnss.GetMainDomain | client.go:133-137 | the main domain is a suffix of the name with one trailing dot removed, is never longer than the name, everything cut from its front is in the set `_acme-challenge.`, and it never starts with a character of that set |
| Ddnss.MainDomainEmptyIff | client.go:65-69 | the main domain is empty exactly when the name, one trailing dot removed, consists only of characters of `_acme-challenge.` |
| Ddnss.MainDomainOfPlainName | client.go:135 | `example.com` yields `xample.com` |
| Ddnss.MainDomainOfChallengeName | client.go:133-137 | `_acme-challenge.example.com.` yields `xample.com` |
| Ddnss.MainDomainOfOtherChallengeName | client.go:133-137 | `_acme-challenge.www.example.org` yields `www.example.org` |
| Ddnss.ValueParameter | client.go:30-39 | a parameter name exists exactly for TXT, A and AAAA, and it never collides with verbose, txtm, host or key |
| Ddnss.RequestParams | client.go:28-50 | for TXT/A/AAAA the parameters are exactly three keys: verbose=true, the type's value parameter holding the record value, and txtm=2 when clearing, 1 otherwise; any other type gives the unsupported-record-type error |
| Ddnss.QueryFor | client.go:72-79 | the query holds host, key and every parameter key, each with exactly one value; parameters override, otherwise host is the main domain and key the API token |
| Ddnss.QueryShape | client.go:72-79 | over three parameters verbose, txtm and a third name distinct from host and key, the query has exactly five single-valued keys and keeps host and key |
| Ddnss.UpdateQueryShape | client.go:28-50 | an update request for a supported record carries exactly five single-valued keys: host (the main domain), key (the token), verbose=true, txtm and the value parameter holding the record value |
| Ddnss.IsQueryFor | client.go:72-79 | setting every parameter over a query holding only host and key yields exactly QueryFor |
| Ddnss.Confirms | client.go:119-123 | a `<font>` element confirms exactly when it has a first child and `Index` finds "Updated " at position 0 of that child's trimmed data (defined as: the trimmed data starts with "Updated ") |
| Ddnss.Acknowledged | client.go:117-128 | the front-to-back test over the `<font>` list holds exactly when some element confirms |
| Ddnss.ReplyOutcome | client.go:90-130 | success, with the one-element list `[domain]`, exactly for a page on which some element confirms; a transport error is passed through; an empty `<font>` list panics with "abort nodes"; any other page gives the request-failed error carrying query and body |
| Ddnss.SetAll | client.go:77-79 | setting every parameter in any key order yields the old keys plus the parameter keys, each parameter single-valued, other keys unchanged |
| Ddnss.ScanFonts | client.go:117-128 | the scan succeeds exactly when the list is acknowledged, that is, some `<font>` element has a first child whose trimmed text starts with "Updated "; elements without a child are skipped |
| Ddnss.DoRequest | client.go:61-131 | no request and the main-domain error exactly when the main domain is empty; otherwise the query is QueryFor(main domain, token, params), and the result is a transport error, a panic for an unparsable page or an empty `<font>` list, `[domain]` when some element confirms, or the request-failed error carrying query and body |
| Ddnss.SetRecord | client.go:20-59 | an unsupported type fails before any request; otherwise the request is the one DoRequest makes with RequestParams, and its error is returned |
| Dinahosting.FirstNonEmpty | provider.go:79-88 | the result is "" exactly when all candidates are empty, and otherwise is a candidate preceded only by empty ones |
| Dinahosting.Translate | provider.go:90-94 | the record copies type and hostname, has an empty ID and zero TTL and priority, and its value is one of the four value fields, empty exactly when all four are |
| Dinahosting.ValueIsFirstNonEmpty | provider.go:79-88 | the if/else-if chain over destination hostname, IP, address and text picks the first non-empty of them |
| Dinahosting.TranslateFields | provider.go:90-94 | a listed record copies type and hostname, takes the first non-empty value field, and leaves ID, TTL and priority zero |
| Dinahosting.ZoneQuery | provider.go:38-44 | the query has exactly AUTH_USER, AUTH_PWD, domain (zone minus one trailing dot), responseType=json and command=Domain_Zone_GetAll, each single-valued |
| Dinahosting.GetRecords | provider.go:32-99 | the request carries the ZoneQuery query; a transport error is returned as is; otherwise exactly one translated record per zone record, in the same order |
| Dinahosting.AppendRecords | provider.go:101-104 | no records and the "TODO: not implemented" error for every input |
| Dinahosting.SetRecords | provider.go:106-110 | no records and the "TODO: not implemented" error for every input |
| Dinahosting.DeleteRecords | provider.go:112-115 | no records and the "TODO: not implemented" error for every input |

## Left out

- The record name: setRecord forms `domain` with `libdns.AbsoluteName(record.Name, zone)`, whose source is not part of this model; `Ddnss.SetRecord` takes the absolute name as a parameter.
- The mutex held by setRecord: it only serialises concurrent calls.
- HTTP: building, sending and reading the requests, the context and the 10-second timeout, and the URL encoding of the query (`Values.Encode`) are not modelled; the query is returned as a `url.Values` map and the server's answer is the `Reply` parameter.
- HTML parsing and the XPath queries: a ddnss `Reply` already holds the data of the first child node of each `<font>` element, in document order (None for an element without children); a page the parser rejects is the `Unparsable` reply.
- Go panics (an unparsable page, an empty `<font>` list) are modelled as the `Panic` error value, although Go unwinds instead of returning.
- Error texts: each error is a constructor holding the values Go formats into its message, not the formatted string.
- JSON decoding: a Dinahosting `Reply` holds the records the decoder filled in. The decode error is discarded and the response code is never checked, so a rejected login yields the records decoded (usually none) and no error.
- Go's nil slice versus empty slice (GetRecords returns nil for a zone without records) is not distinguished: both are the empty sequence.
- `getDomainFromWebinterface` (the login and scrape of the ddnss domain list): network and HTML only.
- `GoStrings.TrimSpace`: does not model Go's handling of invalid UTF-8; characters stand for decoded runes.
