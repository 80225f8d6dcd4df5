# jadwal-sholat in Dafny

A model of the core of `jadwal-sholat`, a command-line tool that prints the
Islamic prayer times (jadwal sholat) of one day for one Indonesian region.
The tool takes a date, a province (provinsi) and a regency (kabupaten). It
works in four steps:

- It loads the region catalog (daerah). The catalog comes from a cache file
  under `~/.cache/jadwal-shalat/`. When that file is missing or unreadable,
  the catalog is scraped from the Bimas Islam web service and saved.
- It finds the region whose two names equal the upper-cased arguments.
- It loads the month schedule of that region through a second cache file.
  It then extracts the requested day's prayer times.
- It can rank those times around a reference moment into "already past" and
  "still to come", each list sorted.

Modules, in dependency order:

| module | file | models |
|---|---|---|
| `Base` | base.dfy | `Option`, `Result`, and `Outcome` (a value, a `process::exit`, or a panic) |
| `Text` | text.dfy | ASCII case mapping, decimal digits, and the order of Rust `String`s |
| `Json` | json.dfy | `serde_json::Value`, indexing by key, and compact rendering (`to_string`) |
| `Calendar` | calendar.dfy | dates and times of day; the `%Y-%m-%d`, `%Y-%m` and `%H:%M` formats |
| `Store` | store.dfy | the cache files as a `Disk` class: a map from path to content, plus the existing directories |
| `Remote` | remote.dfy | the web service as a `Network` class: fixed answers plus a log of sent requests |
| `Config` | config.dfy | `src/config.rs` |
| `Daerah` | daerah.dfy | `src/daerah.rs` |
| `Jadwal` | jadwal.dfy | `load_jadwal` and its helpers in `src/jadwal.rs` |
| `PrevNext` | prevnext.dfy | `get_prev_next` and `sort_jadwal` in `src/jadwal.rs` |
| `Cli` | cli.dfy | `src/main.rs` |

State changes are modelled as methods:

- Creating the cache directory and writing a cache file are `Disk` methods
  with `modifies` clauses.
- Sending a request is a `Network` method that appends the request to
  `log`. "Fetched once" and "not fetched" are statements about `log`.
- Panics (`unwrap`, `expect`, an index out of bounds) and
  `std::process::exit(1)` are `Outcome.Panic` and `Outcome.Exit` values.
- The home directory is an `Option<string>` parameter.
- The reference moment `Local::now()` is a `Clock` parameter: seconds and
  nanoseconds of the day.

Points where the code behaves differently than one might expect; the model
follows the code:

- An unreadable cache file is not fatal. A file that does not parse as the
  expected JSON fails `read_*_file` with an `io::Error`, just like a missing
  file. The data is then fetched again and the file replaced
  (`Daerah.LoadDaerah`, `Jadwal.LoadJadwal`).
- Minute offsets are rounded toward zero, not down. `Duration::num_minutes`
  truncates both to whole seconds and to whole minutes. So an event 30
  seconds in the past has offset 0 and counts as still to come
  (`PrevNext.OffsetSign`).
- Equal offsets are not kept in input order. `Vec::sort` runs on the whole
  tuple `(offset, name, time)`, so ties are broken by name and then by time.
  The result depends only on the multiset of tuples
  (`PrevNext.SortedUnique`, `PrevNext.PrevNextOrderFree`).
- A day without a `tanggal` entry panics. It does not get the label
  `null`: `jadwal_obj["tanggal"]` indexes a `serde_json::Map`, and that
  index panics on an absent key (`Jadwal.DayOutcomes`).
- The month file name is not injective in the region. Names containing `-`
  collide: ("a-b", "c") and ("a", "b-c") share every month file
  (`Jadwal.MonthFileNameCollides`).

## Model

| member | source | states |
|---|---|---|
| Text.Upper | src/main.rs:21-22 | upper-casing turns each lower-case letter into its upper-case partner, keeps the length and every character that is not a lower-case letter (nothing is trimmed), and leaves no lower-case letter |
| Text.Lower | src/jadwal.rs:49-50 | lower-casing turns each upper-case letter into its lower-case partner, keeps the length and every character that is not an upper-case letter, and leaves no upper-case letter |
| Text.NatToStringRoundTrip | src/jadwal.rs:29-30 | the decimal text of the month and year sent to the service reads back as the same number |
| Text.StrLeTotal | src/jadwal.rs:169-170 | any two strings are comparable in `String` order |
| Text.StrLeTrans | src/jadwal.rs:169-170 | `String` order is transitive |
| Text.StrLeAntisym | src/jadwal.rs:169-170 | two strings each at most the other are equal |
| Json.Index | src/jadwal.rs:112 | `Null` when the value is not an object; a value other than `Null` is that of an entry with the key; with distinct keys it is the value of any entry with the key |
| Json.Render | src/jadwal.rs:143 | compact JSON text is never empty, and its first character tells a string (`"`), an array (`[`), an object (`{`) and a number (`-` or a digit) apart |
| Json.Lookup | src/jadwal.rs:112 | `None` exactly when no entry has the key; otherwise the value of an entry with that key |
| Json.RenderString | src/jadwal.rs:143 | `to_string` of a JSON string is the escaped text between quotes; text with nothing to escape appears verbatim between quotes |
| Json.EscapePlain | src/jadwal.rs:143 | escaping leaves text without quotes, backslashes or control characters unchanged |
| Json.EscapeLength | src/jadwal.rs:143 | escaping never shortens text, and lengthens it exactly when some character needs an escape |
| Calendar.ParseFormatDate | src/main.rs:20 | every date's `%Y-%m-%d` rendering parses back to that date |
| Calendar.FormatParseDate | src/main.rs:20 | every accepted date argument is the rendering of the date parsed from it |
| Calendar.FormatMonthIsPrefix | src/jadwal.rs:97-110 | the month label `bulan` is the first seven characters of the day key `hari` |
| Calendar.FormatMonthInjective | src/jadwal.rs:97 | two dates have the same month label exactly when they share year and month |
| Calendar.ParseHourMinute | src/jadwal.rs:155-160 | a parsed `%H:%M` time is a whole minute within one day |
| Calendar.ParseDateTimeOfDate | src/jadwal.rs:159-160 | `"<hari> <time>"` parses exactly when `time` parses as `%H:%M`, and gives back the same day |
| Calendar.ParseHourMinuteOf | src/jadwal.rs:160 | `HH:MM` with two-digit fields reads as HH hours and MM minutes |
| Store.ReadOutcome | src/jadwal.rs:57-66 | a read succeeds exactly on a file holding JSON and yields its document; a missing file fails with `NotFound`; unparsable text fails too |
| Store.Disk.CreateDirAll | src/config.rs:16-19 | creating the directory succeeds when it is allowed or the directory exists; the directory exists afterwards when allowed |
| Store.Disk.ReadJson | src/jadwal.rs:59-63 | reading changes nothing and yields `ReadOutcome` of the current files |
| Store.Disk.WriteJson | src/jadwal.rs:68-80 | writing replaces the one file with the document when allowed, leaves every file unchanged otherwise, and reports which |
| Remote.Network.GetProvinces | src/daerah.rs:20-34 | the province page request is logged once and answered with the province options |
| Remote.Network.FetchRegencies | src/daerah.rs:91-99 | the regency request for a province token is logged once and answered with that province's options |
| Remote.Network.FetchMonth | src/jadwal.rs:26-43 | the month request with its four form fields is logged once and answered with the service's JSON |
| Config.CacheDir | src/config.rs:6-7 | the cache directory starts with the home directory, ends with `.cache/jadwal-shalat/`, and puts a `/` in between exactly when the home directory is not empty and does not already end with one |
| Config.Push | src/config.rs:7 | the result starts with the base and ends with the pushed path; a `/` is inserted between them exactly when the base is not empty and does not end with `/` |
| Config.GetCacheName | src/config.rs:5-14 | panics without a home directory; otherwise returns the cache directory followed directly by the name, whether or not creating the directory worked |
| Config.CachePathInjective | src/config.rs:13 | the path ends with the name, so distinct names give distinct paths |
| Daerah.Records | src/daerah.rs:103-116 | one record per option, in option order, with the province name and token unchanged and a missing `value` read as "" |
| Daerah.BuildDaerah | src/daerah.rs:89-117 | one regency request is sent; a failed request panics; otherwise the result is the records of the answered options |
| Daerah.Catalog | src/daerah.rs:37-48 | every record of the catalog carries the name and token of one of the province options |
| Daerah.FetchedCatalog | src/daerah.rs:19-49 | never an exit; the catalog is built exactly when the province page loads and every province request succeeds, and then holds one record per regency |
| Daerah.CatalogSize | src/daerah.rs:37-48 | the catalog is built exactly when every province request succeeds, and then its length is the total number of regencies |
| Daerah.CatalogAppend | src/daerah.rs:37-45 | the catalog of two runs of provinces is the concatenation of their catalogs |
| Daerah.AfterFailure | src/daerah.rs:38-45 | after the first failing province no further request is sent and there is no catalog |
| Daerah.CatalogStep | src/daerah.rs:38-45 | one loop step sends the next province's request and either ends the catalog or extends it by that province's records |
| Daerah.CollectProvinces | src/daerah.rs:37-48 | the loop yields the catalog or the panic of the first failed province, and sends exactly the requests up to that point |
| Daerah.FetchDaerah | src/daerah.rs:19-49 | the province page is requested first; a failure there panics; otherwise the result and requests are those of the province loop |
| Daerah.EncodeCatalog | src/daerah.rs:62-67 | a catalog is saved as an array with one element per record, each reading back as that record |
| Daerah.DecodeCatalog | src/daerah.rs:57 | a catalog is read exactly from an array whose every element reads as a record, element by element |
| Daerah.DecodeEncodeDaerah | src/daerah.rs:11-17 | a saved record reads back as the same record |
| Daerah.CatalogRoundTrip | src/daerah.rs:57-67 | a saved catalog reads back as the same catalog |
| Daerah.DecodeAllEncoded | src/daerah.rs:57 | the array of saved records decodes to the records |
| Daerah.SavedCatalogIsRead | src/daerah.rs:51-70 | after a save to a path, reading that path yields the saved catalog |
| Daerah.LoadDaerah | src/daerah.rs:72-87 | never an `Err` or exit; a readable cache is returned with no request and no write; otherwise the catalog is fetched once, saved when possible to the same path, and returned whether or not the save worked |
| Jadwal.MonthFileName | src/jadwal.rs:48-52 | the file name is the lower-cased province, `-`, the lower-cased regency, then `-<bulan>.json` |
| Jadwal.MonthPath | src/jadwal.rs:48-55 | the month path is the cache directory followed by the region's month file name, ending with the month label and `.json` |
| Jadwal.MonthPathSeparatesMonths | src/jadwal.rs:48-55 | a region's two dates share a month file exactly when they fall in the same month |
| Jadwal.MonthFileNameCollides | src/jadwal.rs:52 | ("a-b", "c") and ("a", "b-c") share every month file name |
| Jadwal.ItemsOf | src/jadwal.rs:124-140 | at most one item per entry, strictly fewer when `tanggal` is present; no item is named `tanggal` and none has a distance |
| Jadwal.ItemsOfAppend | src/jadwal.rs:126-140 | items keep the order of the entries they come from |
| Jadwal.ItemsOfMembers | src/jadwal.rs:126-140 | every item comes from an entry other than `tanggal`, and every such entry gives an item: string values verbatim, other values as "", no distance |
| Jadwal.ItemsOfCount | src/jadwal.rs:126-140 | with distinct keys there is one item per entry, minus one if `tanggal` is present |
| Jadwal.Day | src/jadwal.rs:110-145 | every exit has code 1 and the only panic is the missing `tanggal` key; a loaded day comes from an object with fewer items than entries |
| Jadwal.DayOutcomes | src/jadwal.rs:110-145 | an object day with `tanggal` loads; an object day without it panics; an absent or null day, or a month that is not an object, exits with "No jadwal for"; any other value exits with "Invalid jadwal type" |
| Jadwal.DayContents | src/jadwal.rs:124-145 | a loaded day's items are those of its day object, and its label is the JSON rendering of `tanggal` |
| Jadwal.ExtractItems | src/jadwal.rs:124-140 | the extraction loop yields exactly the items of the day object |
| Jadwal.FetchJadwal | src/jadwal.rs:25-46 | one month request with both tokens and the unpadded month and year; the answer's `data` member, or a panic |
| Jadwal.LoadJadwal | src/jadwal.rs:96-146 | a readable month file is used with no request and no write; otherwise one request and one write attempt to the same path, and the fetched month is used even if the write fails; then the requested day |
| PrevNext.TruncDiv | src/jadwal.rs:161 | the quotient rounds toward zero |
| PrevNext.NumMinutes | src/jadwal.rs:161 | rounding to whole seconds and then to whole minutes, both toward zero, equals rounding straight to whole minutes toward zero |
| PrevNext.NumMinutesSign | src/jadwal.rs:161-163 | a duration counts as zero or more minutes exactly when it is less than a full minute in the past |
| PrevNext.Offset | src/jadwal.rs:159-161 | the offset exists exactly when the time parses as `%H:%M` |
| PrevNext.OffsetFormula | src/jadwal.rs:161 | for every reference moment, including one with a fraction of a second, the offset is the time from the reference to the event rounded toward zero to whole minutes |
| PrevNext.OffsetIgnoresDate | src/jadwal.rs:159-161 | the offset does not depend on the date |
| PrevNext.OffsetSign | src/jadwal.rs:161-167 | an event counts as still to come until a full minute has passed since it, and has offset 0 during that minute |
| PrevNext.OffsetWholeSeconds | src/jadwal.rs:161 | on a whole-second reference, the offset is the difference in seconds divided by 60 and rounded toward zero |
| PrevNext.Le | src/jadwal.rs:169-170 | the tuple order is reflexive and compares offsets first: a smaller offset comes first, and a tuple never precedes one with a smaller offset |
| PrevNext.LeTotal | src/jadwal.rs:169-170 | any two tuples are ordered one way or the other |
| PrevNext.LeTrans | src/jadwal.rs:169-170 | the tuple order is transitive |
| PrevNext.LeAntisym | src/jadwal.rs:169-170 | two tuples each at most the other are equal |
| PrevNext.Insert | src/jadwal.rs:169-170 | inserting into a sorted list gives a sorted list with one more copy of the element |
| PrevNext.Sort | src/jadwal.rs:169-170 | the result is sorted and a permutation of the input |
| PrevNext.SortedUnique | src/jadwal.rs:169-170 | two sorted permutations of the same tuples are equal |
| PrevNext.Ranks | src/jadwal.rs:158-161 | `None` exactly when some item's time does not parse; otherwise one tuple per item, in item order |
| PrevNext.SplitPermutes | src/jadwal.rs:163-167 | the past part and the future part together hold every tuple exactly as often as the input |
| PrevNext.SplitIsRanking | src/jadwal.rs:163-170 | sorting each part gives sorted lists, split at offset 0, forming a permutation of the tuples |
| PrevNext.PrevNext | src/jadwal.rs:148-173 | `None` exactly when some item's time does not parse; otherwise two sorted lists, past and coming, that together are a permutation of the items' tuples |
| PrevNext.PrevNextIsTheRanking | src/jadwal.rs:148-173 | the answer is the one and only pair that is sorted, split at offset 0 and a permutation of the tuples |
| PrevNext.RankingUnique | src/jadwal.rs:163-170 | two such pairs for the same tuples are equal |
| PrevNext.PrevNextOrderFree | src/jadwal.rs:158-172 | item lists with the same tuples up to order get the same answer |
| PrevNext.Nearest | src/jadwal.rs:169-172 | the last past tuple is the most recent past event and the first future tuple the soonest coming one; each list is empty exactly when no tuple is on its side |
| PrevNext.PrevNextCounts | src/jadwal.rs:158-167 | every item lands in exactly one of the two lists |
| PrevNext.GetPrevNext | src/jadwal.rs:148-173 | panics exactly when some time does not parse, and otherwise returns the ranking |
| PrevNext.SortJadwal | src/jadwal.rs:178-202 | returns the same pair as `get_prev_next`, wrapped in `SortJadwalResult` |
| Cli.ParseArgs | src/main.rs:15-22 | accepted exactly with four arguments and a valid date; with none it panics, with another count it exits 1 with usage, and with a bad date it panics; the names are upper-cased |
| Cli.ParseArgsOfDate | src/main.rs:20-22 | a command line naming any date by its rendering is accepted and yields that date |
| Cli.QueryIgnoresCase | src/main.rs:21-22 | arguments that differ only in letter case give the same query |
| Cli.FirstMatch | src/main.rs:25-29 | `None` exactly when no record matches both names; otherwise the first matching record |
| Cli.LowerCaseNeverSelected | src/main.rs:21-29 | a record whose stored names hold a lower-case letter is never selected |
| Cli.Run | src/main.rs:11-38 | a bad command line ends the run untouched; then the catalog, the region lookup with the "not exist" exit and no partial result, and the region found is the one the schedule is loaded for |

## Left out

- `src/client.rs` is not part of this model. `build_client` (headers, cookie
  store, homepage probe) is assumed to succeed. Its own panic and exit are not
  modelled.
- HTTP and HTML. A service answer is an abstract value: the province and
  regency `<option>`s as (inner HTML, `value` attribute) pairs, and the month
  schedule as a JSON value. The URLs and form encoding are not modelled.
- Different network failures share one panic message. A failed send, a body
  that cannot be read, a missing `select#search_prov` and a month answer that
  is not JSON all panic with the message of the failed send.
- JSON text. A cache file holds a parsed `Value`, or text that does not
  parse. `to_string_pretty`, the parser, and numbers other than integers are
  not modelled. Saving then reading gives back the same value.
- The order of a `serde_json::Map`. Object entries keep the order given in
  the model's sequence. Whether the build sorts keys (BTreeMap) or keeps
  insertion order depends on a Cargo feature outside the sources.
- Region names are taken to contain no `/`. A province or regency name with
  a `/` would put the month file in a subdirectory of the cache directory
  that is never created, so `File::create` would fail on every run and the
  month would be fetched again each time. The model's `Disk.WriteJson` does
  not check that the parent directory exists, so for such a name it caches
  what the program cannot.
- Duplicate keys in a JSON object. A parsed document is a `Value` whose
  objects may hold a key twice. `Lookup` and `Index` then take the first
  entry, whereas serde_json's parser keeps the last one. `DecodeDaerah`
  rejects a duplicate field, as serde's derive does on the text. Month
  documents are assumed to hold each key once (`DistinctKeys`), which is
  what a parsed `serde_json::Map` holds.
- Case mapping is ASCII only. Rust's Unicode `to_uppercase`/`to_lowercase`
  can change length for some characters.
- chrono parsing leniency (one-digit fields, surrounding text) and leap
  seconds. Years outside 0..9999 are not modelled either.
- Non-UTF-8 home directories. The panic at src/config.rs:12 is not modelled,
  because paths are strings.
- `list_daerah`, all printing and the `eprintln!` diagnostics. async/tokio,
  since every call is awaited in sequence.
- src/main.rs:24-27 calls `.iter()` on the `Result` that `load_daerah` returns,
  and src/main.rs:39-49 indexes the `Jadwal` struct as JSON. Neither compiles
  against the current signatures. `Cli.Run` models the intent: the lookup runs
  on the loaded catalog, and the run ends with the region and its day's
  schedule. The second day lookup and the final print are not modelled.
- Cli.Run: for a run that gets past the region lookup, the contract names the
  region used but does not restate the schedule result. That result is stated
  by `Jadwal.LoadJadwal` against the disk as `load_daerah` leaves it.
