# PJFP (Picasa JSON Feed Parser) in Dafny

PJFP is a PHP class that fetches the JSON feed of one Picasa web album and
turns it into a flat list of records `[URL, width, height, caption]`. The
records are optionally rescaled to fit a height bound, and their URLs can be
rewritten to HTTPS. One parser object holds:

- a configuration array: the defaults of `PJFP_config.php` with the caller's
  overrides merged over them;
- the album id and the access key;
- the records. `get_data` runs a fetch on every call while no records are
  stored, so after a failed or empty fetch the next call fetches again. Once
  a fetch has yielded records they are kept and never fetched again.

`get_data` hands the stored records out in one of three shapes.

The model has one module per part of the class:

- `Php` (`php.dfy`): the PHP runtime behaviour the class uses. This is
  truthiness (`if`, `?:`, `empty()`), `%s`/`%d` formatting of scalars,
  `strtolower` and `str_replace`.
- `PjfpConfig` (`pjfp_config.dfy`): the default configuration table.
- `Transform` (`transform.dfy`): a feed entry and a stored record, the resize
  rule of `image_resize`, the `http` to `https` rewrite, and the records
  `json()` builds from a feed.
- `Requests` (`requests.dfy`): the feed path that `curl()` and `socket()`
  format, the request each transport sends, and the header-skipping read
  loop of `socket()`.
- `Shapes` (`shapes.dfy`): the shape selector of `get_data`, the three node
  shapes, and the projection loop that rewrites a copy of the records in
  place.
- `PicasaFeed` (`pjfp.dfy`): the class `Pjfp`. Its fields are `config`,
  `data`, `albumId` and `authKey`, plus a ghost counter `fetches` of transport
  requests. Its methods are the constructor, `SetConf`, `BuildConf`,
  `GetConfig`, `ImageResize`, `Json` and `GetData`.

The network is a parameter `fetch: Request -> Response`. It maps the exact
request a transport sends to a transport failure or to a decoded document. A
decoded document is either falsy or a feed whose entry list may be absent.

The model keeps these behaviours of the code:

- The HTTPS rewrite replaces every occurrence of `http`, so `https://…`
  becomes `httpss://…` (`Transform.UpgradeOfHttpsUrl`).
- A feed without `feed.entry` yields zero records and no error.
- `get_config` of an unset key yields PHP null (`None`).
- The configuration key is spelled `use_HTTPS`, and the named key in the
  projected shapes is `URL`.
- The doc comment of `image_resize` says horizontal images are not resized.
  The code resizes any image taller than `max_height`, wide or not, and so
  does the model (`Transform.Resized`).

## Model

| member | source | states |
|---|---|---|
| `PjfpConfig.DefaultKeys` | PJFP_config.php:26-30 | the default table has exactly the five keys `user`, `max_width`, `max_height`, `use_HTTPS`, `use_curl` |
| `PjfpConfig.DefaultValues` | PJFP_config.php:26-30 | the default user is empty, the bounds are 550 and 367, HTTPS is off and cURL is on |
| `PicasaFeed.DefaultBehaviour` | PJFP_config.php:26-30 | with no overrides and no key, the request goes through cURL to the plain-HTTP host, with an empty user and `imgmax=550` |
| `PicasaFeed.DefaultRequestPath` | PJFP.php:147-152 | the default public-album path is `/data/feed/base/user//albumid/{id}?alt=json&fields=entry(media:group)&imgmax=550` |
| `PicasaFeed.DefaultSettings` | PJFP_config.php:26-30 | with no overrides the bounds are integers, the height bound is 367, URLs are not rewritten and cURL is chosen |
| `PicasaFeed.Merged` | PJFP.php:88-89 | after merging, a key is set exactly when the defaults or the override array set it; the value is the override's if it has the key, the default's otherwise; a non-array override leaves the defaults |
| `PicasaFeed.Lookup` | PJFP.php:262-264 | reading `$this->config[$key]`: the stored value when the key is set, null when it is not, and a non-null value only for a set key |
| `PicasaFeed.RequestFor` | PJFP.php:210 | `json()` sends through cURL exactly when `use_curl` is truthy, otherwise through the socket, and either way asks for the feed path built from `user`, the album id, `max_width` and the key |
| `PicasaFeed.Fetched` | PJFP.php:209-233 | one run of `json()`: a transport failure throws the transport error and a falsy decode the decode error (each exactly then); an absent entry list yields no records; success yields one record per entry |
| `PicasaFeed.Pjfp.constructor` | PJFP.php:61-65 | a new parser stores the album id and key, holds no records, has made no fetch, and its configuration is the merge of the defaults and `$conf` |
| `PicasaFeed.Pjfp.BuildConf` | PJFP.php:82-93 | storing every merged setting one key at a time leaves the configuration equal to the old one overlaid with the merged table |
| `PicasaFeed.Pjfp.SetConf` | PJFP.php:73-75 | exactly the given key takes the given value; every other lookup is unchanged and all default keys stay set |
| `PicasaFeed.Pjfp.GetConfig` | PJFP.php:262-264 | a lookup yields the stored value exactly when the key is set, and null otherwise |
| `PicasaFeed.Pjfp.ImageResize` | PJFP.php:244-254 | the method's result is the resize rule against the configured `max_height`: capped height when taller, untouched otherwise |
| `PicasaFeed.Pjfp.Json` | PJFP.php:209-233 | one fetch; on a transport failure or a falsy decode it throws and appends nothing; otherwise it appends one record per entry in feed order (none when the entry list is absent) |
| `PicasaFeed.Pjfp.AppendRecords` | PJFP.php:215-231 | the `foreach` loop appends exactly the records of the entries, in feed order, each rewritten and resized under the current configuration |
| `PicasaFeed.Pjfp.GetData` | PJFP.php:102-137 | fetches only when no records are stored; stored records are never changed or refetched; the result is the stored records in the selected shape, or the fetch's exception |
| `PicasaFeed.MemoisedAcrossSetConf` | PJFP.php:102-104 | after a non-empty first `get_data`, a `set_conf` and a second `get_data` return the records built from the first configuration, in the second selector's shape, whatever the network answers the second time; after an empty or failed first fetch, the second call returns what a fetch under the changed configuration yields from the network as it answers then |
| `Transform.RoundedScale` | PJFP.php:250 | the new width is the integer nearest to `width * max_height / height`, halves rounded up as PHP `round` does for non-negative values |
| `Transform.RoundingIsUnique` | PJFP.php:250 | no other integer meets that rounding condition, so the formula is PHP `round` of the exact quotient |
| `Transform.Resized` | PJFP.php:244-254 | the resize rule: an image taller than `max_height` ends exactly `max_height` tall; one no taller keeps its width and height, whatever the width; the height never grows |
| `Transform.ResizeSquare` | PJFP.php:246-248 | a square image taller than the bound becomes `max_height` by `max_height` |
| `Transform.SquareBranchAgreesWithScale` | PJFP.php:246-252 | the square branch gives what the proportional formula would give |
| `Transform.ResizeKeepsAspect` | PJFP.php:249-252 | a resized image keeps its aspect ratio to within half a pixel of width |
| `Transform.ScaleNeverWidens` | PJFP.php:250 | scaling down to `max_height` never yields a wider image |
| `Transform.ResizeNeverGrows` | PJFP.php:244-254 | neither width nor height ever grows |
| `Transform.ResizeIdempotent` | PJFP.php:244-254 | resizing an already resized image changes nothing |
| `Transform.UpgradeIsReversible` | PJFP.php:218-219 | replacing `https` back by `http` recovers the original URL, so the rewrite loses nothing |
| `Php.StrReplace` | PJFP.php:219 | `str_replace` of every occurrence left to right: an empty search changes nothing; a replacement no shorter than the search never shortens the subject, one of equal length keeps its length |
| `Transform.Upgrade` | PJFP.php:219 | the `http` to `https` rewrite never shortens a URL and leaves one shorter than `http` unchanged |
| `Transform.UpgradeSkipsNonH` | PJFP.php:219 | a character other than `h` cannot start an occurrence, so it passes through the rewrite unchanged |
| `Transform.UpgradeOfScheme` | PJFP.php:219 | a leading `http` becomes `https` with the rest rewritten on its own, and `://` passes through |
| `Transform.UpgradeOfHttpUrl` | PJFP.php:219 | for every `rest`, `http://rest` becomes `https://` followed by the rewrite of `rest` |
| `Transform.UpgradeOfHttpsUrl` | PJFP.php:219 | for every `rest`, `https://rest` becomes `httpss://` followed by the rewrite of `rest`: the rewrite is not idempotent |
| `Transform.UpgradeOfPlainHttpUrl` | PJFP.php:219 | when `rest` holds no `http`, `http://rest` becomes `https://rest` and `https://rest` becomes `httpss://rest` |
| `Transform.ToRecord` | PJFP.php:216-230 | the record of one entry keeps its caption, has a height no greater than the entry's and capped at `max_height` when taller, keeps width and height when not taller, keeps the URL unless HTTPS is on, and never has a shorter URL |
| `Transform.Records` | PJFP.php:215-231 | the records built from a feed: one per entry |
| `Transform.RecordsExtend` | PJFP.php:215-231 | handling one more entry appends exactly that entry's record |
| `Transform.RecordsAt` | PJFP.php:215-231 | the k-th record is built from the k-th entry alone |
| `Transform.RecordsAppend` | PJFP.php:215-231 | the records of two concatenated feeds are the two record lists concatenated |
| `Transform.RecordsBounded` | PJFP.php:215-231 | each record is no larger than its entry, capped at `max_height` when taller, keeps its caption, and keeps its URL unless HTTPS is on, in which case the URL is rewritten |
| `Php.StrReplaceNoOccurrence` | PJFP.php:219 | `str_replace` leaves a subject without any occurrence of the search string unchanged |
| `Php.EmptyStringCases` | PJFP.php:151 | `empty()` holds of a string exactly when it is `""` or `"0"` |
| `Php.Truthy` | PJFP.php:210-218 | PHP's boolean conversion over the four value kinds modelled (null, booleans, integers, strings): a value is false exactly when it is null, `false`, `0`, `""` or `"0"` |
| `Php.StrOf` | PJFP.php:147-149 | `%s` of a modelled value: a string prints itself, null and `false` print nothing, `true` prints `1`, and an integer prints decimal text that reads back as that integer |
| `Php.NatToDecimal` | PJFP.php:150 | `%d` of a non-negative integer is a non-empty string of digits without a leading zero |
| `Php.DecimalRoundTrip` | PJFP.php:150 | the digits written for a non-negative integer read back as that integer |
| `Php.IntDecimalRoundTrip` | PJFP.php:150 | the text `%d` writes for any integer reads back as that integer, with a minus sign exactly for negatives |
| `Php.ToLower` | PJFP.php:106 | lowercasing keeps the length, leaves no upper-case letter, maps each upper-case ASCII letter to its lower-case form and keeps every other character |
| `Php.ToLowerIdempotent` | PJFP.php:106 | lowercasing twice is lowercasing once |
| `Requests.AuthSuffix` | PJFP.php:151 | the `&authkey={key}` suffix is added exactly when the key is not `""` or `"0"` |
| `Requests.RequestPathParts` | PJFP.php:147-152 | the path starts with user, album and `imgmax`, and it ends there or with `&authkey={key}` as `empty()` decides |
| `Requests.RequestPathWidth` | PJFP.php:147-152 | for any access key, the digits after `imgmax=` read back as `max_width` |
| `Requests.RequestPath` | PJFP.php:147-152 | the feed path starts with `/data/feed/base/user/` and, when the key is not `empty()`, ends with `&authkey={key}` |
| `Requests.CurlRequest` | PJFP.php:147-154 | `curl()` fetches a URL that starts with `http://picasaweb.google.com` and from which the path reads back unchanged |
| `Requests.SocketRequest` | PJFP.php:182-189 | `socket()` writes a message that starts with `GET `, ends with ` HTTP/1.1`, the `Host: picasaweb.google.com` header, `Connection: Close` and the blank line, and whose request line reads back as the same path |
| `Requests.BodyAfterHeaders` | PJFP.php:192-197 | what `socket()` keeps of the chunks it reads is always a suffix of everything read |
| `Requests.SkipHeaders` | PJFP.php:192-197 | the read loop returns exactly what follows the first chunk equal to CR LF |
| `Requests.BodyFollowsBlankLine` | PJFP.php:192-197 | when header chunks are followed by a CR LF chunk, the result is everything after that chunk |
| `Requests.NoBlankLineNoBody` | PJFP.php:192-197 | a response without a CR LF chunk yields nothing |
| `Shapes.SelectShape` | PJFP.php:106-134 | the lowercased selector `both` gives the combined shape, `assoc` or `associative` the named shape, anything else the numeric records |
| `Shapes.SelectorIgnoresCase` | PJFP.php:106 | selectors that agree after lowercasing choose the same shape |
| `Shapes.SelectorDefaults` | PJFP.php:106-136 | a null selector gives the numeric shape; `ASSOC` gives the named one; `Both` gives the combined one |
| `Shapes.ShapedNode` | PJFP.php:107-136 | the node of one record: the positions 0 to 3 for the numeric shape, the names `URL`, `width`, `height`, `caption` for the named shape, all eight for the combined one, each holding the record's URL, width, height and caption |
| `Shapes.AssociativeNodeMatchesNumeric` | PJFP.php:120-133 | a named node has exactly the keys `URL`, `width`, `height`, `caption`, holding positions 0 to 3 |
| `Shapes.BothNodeHoldsBoth` | PJFP.php:107-119 | a combined node has positions 0 to 3 and the four names, each name equal to its position; it extends both other shapes |
| `Shapes.Project` | PJFP.php:106-136 | the projection has one node per record, in order, each in the selected shape |

## Left out

- Network transport: cURL options, redirects, timeouts and socket I/O are not modelled. The fetch is the parameter `fetch`, applied to the exact request each transport would send. Only the header-skipping read loop of `socket()` is modelled, on the sequence of chunks the `fgets` calls return.
- JSON decoding is not modelled. A response is either a falsy decode or a document whose entry list may be absent.
- PHP notices for undefined indices are not modelled. An entry's fields are always present in `Entry`, so a missing media field inside an entry is out of scope.
- `fgets` returning false is not modelled. The 127-byte chunking of `fgets($fp, 128)` is kept only as input: a chunk is compared with CR LF as it comes, so a header line whose text is a multiple of 127 bytes long ends the headers early, in the model as in the code.
- Loading `PJFP_config.php` with `include`, and the "failed to load" exception, are not modelled. The defaults are a constant map.
- Exception message texts are not modelled, and neither is the undefined `$this->cURL` property they read.
- `PicasaFeed.Pjfp.ImageResize`: exact rational arithmetic stands in for PHP's floating-point `$width * ($max_height / $height)`. The two can differ near exact halves. PHP also returns the rounded width as a float; the model keeps integers.
- `PicasaFeed.Pjfp.ImageResize`: requires `max_height` to be an integer that is not negative. Records hold natural-number sizes, and a negative height bound is no meaningful setting; PHP's comparison and rounding against such a bound are not modelled.
- `PicasaFeed.Pjfp.Json`: requires `max_width` and `max_height` to be integers, with `max_height` not negative. PHP's type juggling of other values in comparisons and `%d` is not modelled.
- `PicasaFeed.Pjfp.GetData`: requires the same integer bounds, but only when no records are stored yet, because only then does it fetch.
- `PicasaFeed.Merged`: configuration keys are strings. `array_merge` renumbering integer keys is not modelled.
- `PicasaFeed.Pjfp.GetConfig`: `None` stands for PHP's null. The model tells an unset key apart from a key set to null; PHP returns null for both.
- `Php.ToLower`: lowercases ASCII letters only. The locale-dependent behaviour of older PHP versions is not modelled.
- `Shapes.Project`: the order of keys inside one PHP array node is not modelled, because a node is a map.
- The album id is a scalar formatted with `%s`. The access key is a string.
- Configuration values are null, booleans, integers or strings. PHP floats (`0.0` is falsy) and arrays are not modelled, so `Php.Truthy` and `Php.StrOf` cover only those four kinds.
