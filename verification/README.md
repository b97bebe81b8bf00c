# osu! beatmap downloader — a Dafny model of its core

The program searches the catboy.best catalog for osu! beatmap sets and
downloads each set it finds as an `.osz` archive. It tries the catalog's own
download endpoint first and the nerinyan.moe mirror second. This project
models the four parts of `main.py` that carry logic, and proves properties of
them:

- **Filename** — `sanitize_filename`. The nine characters
  `< > : " / \ | ? *` become `_`; other characters Windows rejects in a file
  name, such as control characters, are kept. A name longer than 250
  characters keeps its extension and loses the end of its stem.
  `os.path.splitext` is modelled with the rules of the Windows path module:
  it looks past both separators, and leading dots do not start an extension.
- **Search** — the request path `search_beatmaps` builds. Each filter adds a
  `key=value` parameter under its own rule:
  - a query, status list, mode list or sort list only when it is present and
    non-empty;
  - a limit only when it is not 100;
  - an offset only when it is positive.

  The parameters come in a fixed order, joined by `&` after a `?`. A partner
  parser reads a path back. The main theorem: two filters send the same path
  exactly when they agree once normalised (`Canonical`), as long as no query
  or sort key contains `&` and no sort key contains `,`.
- **Listing** — what `main` does with the search response:
  - it picks the list of records (a bare list, else `results`, else
    `beatmaps`, else an empty list);
  - it applies the `.get` defaults to each record (`beatmapset_id` falls back
    to `id` only when the key is absent);
  - it asks for one download per record whose set id is truthy.

  Python truthiness, `str()` and the exceptions the loop can raise are
  explicit (`Payload.Truthy`, `Payload.Str`, `Listing.Run.Crashed`).
- **Download** — `download_beatmap`. It tries two sources in order, each with
  three attempts, and stops at the first success. It writes to
  `"{id} {title}.osz"`, sanitised. The network is an oracle
  `net: nat -> Attempt`: request `i` of a download receives `net(i)`. That
  answer is a 425, another request error, or a successful transfer.

A 425 answer is followed by `continue` inside `for attempt in range(3)`, so
it uses up one of the source's three attempts exactly like a request error.
`Download.RefusalsExhaustPrimary` states the consequence: three 425 answers
move the download to the mirror.

`beatmapset_id` falls back to `id` only when the key is absent, so a record
holding `"beatmapset_id": null` is reported as missing its set id and no
download is asked for (`Listing.FetchIffSetIdResolves`).

## Model

| member | source | states |
|---|---|---|
| Filename.ReplaceIllegal | main.py:95-96 | The output has the input's length; each illegal character becomes `_` and every other character is kept |
| Filename.ReplaceIllegalKeepsClean | main.py:95-96 | A name with no illegal character passes the substitution unchanged |
| Filename.SplitExt | main.py:98 | The stem and the extension concatenate back to the name; a non-empty extension starts with `.`, holds no further dot or separator, and follows a stem whose last component is not all dots; an empty extension means every dot after the last separator is preceded only by dots |
| Filename.SliceTo | main.py:99 | Python's `s[:n]` yields a prefix of `s`: of length `n` when `0 <= n <= len(s)`, the whole of `s` when `n > len(s)`, and `len(s) + n` characters (none when that is negative) when `n < 0` |
| Filename.Shorten | main.py:99 | The shortened name ends with the extension and starts with a prefix of the stem; it fits 250 characters whenever the extension does, and is exactly 250 long when the input was longer |
| Filename.Sanitize | main.py:93-100 | The result has no illegal character; a substituted name of at most 250 characters is returned whole; a longer one keeps its extension, keeps a prefix of its stem, and is cut to 250 when the extension fits |
| Filename.SanitizeIdempotent | main.py:93-100 | Sanitising twice is sanitising once whenever the extension fits the limit |
| Filename.LongExtensionOverflows | main.py:97-99 | As written, "a." followed by n >= 250 letters comes out n + 1 characters long, past the limit |
| Filename.SanitizeBounded | main.py:93-100 | The corrected sanitiser: never longer than 250, never an illegal character, equal to `Sanitize` whenever the extension fits |
| Filename.SanitizeBoundedIdempotent | main.py:93-100 | The corrected sanitiser is idempotent on every input |
| Strings.IntToStringRoundTrip | main.py:59 | The decimal text of any integer parses back to it |
| Strings.IntToString | main.py:59-61 | The decimal text of an integer is non-empty, starts with `-` exactly when the integer is negative, is otherwise made of digits, and has no leading zero: its first digit is `0` only for zero itself |
| Strings.IntsRoundTrip | main.py:63 | A non-empty integer list joined with commas parses back to the same list |
| Search.SearchParams | main.py:55-67 | The parameters are in the fixed order with no key repeated, and each key carries its value exactly when its inclusion rule holds |
| Search.PathOf | main.py:69-70 | The path always starts with `/api/v2/search`; it is exactly that when there are no parameters, and otherwise a `?` follows it |
| Search.SearchPath | main.py:50-70 | The request path starts with `/api/v2/search` and is exactly that if and only if no filter asks for a parameter |
| Search.PathRoundTrip | main.py:69-70 | A parameter list whose values hold no `&` is recovered from its path, including the bare path for an empty list |
| Search.SearchPathRoundTrip | main.py:50-70 | The parameters of a separable filter are recovered from the path it sends |
| Search.DecodeSearchParams | main.py:55-67 | The parameters of a separable filter describe exactly its canonical form |
| Search.ParamsOfCanonical | main.py:55-67 | Normalising a filter does not change its parameters |
| Search.LookupDetermines | main.py:55-67 | An ordered parameter list is fixed by what each key looks up |
| Search.SamePathIffSameCanonical | main.py:50-70 | Two separable filters send the same path if and only if their canonical forms are equal |
| Search.RawQueryCollision | main.py:56-70 | The query `a&limit=5` with limit 100 sends the same path as the query `a` with limit 5, though the filters differ |
| Search.DefaultCallPath | main.py:50-70 | Called with its own defaults the search sends `/api/v2/search?limit=10000` |
| Payload.Truthy | main.py:174 | A value is true exactly when it differs from the false value of its kind: None, False, 0, the empty string, list or dict |
| Payload.Str | main.py:193-194 | `str()` keeps a string, renders an integer as its canonical decimal text (`IntToString`, no leading zero), which parses back to it, and renders booleans and None as `True`, `False` and `None` |
| Listing.BeatmapList | main.py:174-182 | A false payload fails as "no results"; a true payload that is neither list nor dict fails as an unrecognised shape; a true list is used whole; a dict gives `results`, else `beatmaps`, else an empty list |
| Listing.Records | main.py:183-185 | `len` and the loop accept a list as its items, a false string or dict as no records, and fail on anything else (a true string or dict, a number, a boolean, None) |
| Listing.Summarise | main.py:186-189 | `id` defaults to None; the set id is `beatmapset_id` when that key is present and falls back to `id` otherwise; artist and title default to "Unknown Artist" and "Unknown Title" |
| Listing.StepFor | main.py:187-196 | A record asks for a download exactly when its resolved set id is truthy, naming it by that id and "artist - title" |
| Listing.FetchIffSetIdResolves | main.py:186-196 | Read off the raw record: with `beatmapset_id` present, a download is asked for exactly when that value is true, so `null` is skipped whatever `id` holds; without it, exactly when `id` is present and true, and the download is named by `str(id)` |
| Listing.ProcessRecords | main.py:185-196 | The loop takes one step per record, in order, and gets through the list exactly when every record is a dict; otherwise it stops at the first record that is not |
| Listing.HandleResults | main.py:174-198 | The run reports a failed search exactly when the payload is false and a bad shape exactly when it is a true non-list non-dict; otherwise it walks the records as `ProcessRecords` does, completing exactly when every record is a dict and otherwise stopping, after one step per record, at the first record that is not |
| Listing.FetchOnlyWithSetId | main.py:185-196 | Step i of a run is a download exactly when record i's resolved set id is truthy |
| Listing.BareListWalked | main.py:175-196 | A non-empty list of dicts is walked to the end, one step per record |
| Listing.ResultsKeyWins | main.py:178 | A dict's `results` entry is used whatever its `beatmaps` entry holds |
| Download.SourceUrls | main.py:104-107 | Two download URLs, the catalog's first and the mirror's second, each ending in the set id |
| Download.TrySource | main.py:119-144 | One source's attempts: request i goes to that URL with answer `net(next + i)`; success comes exactly when one of the allowed answers is a success, and the run stops at the first one; a failing source uses all its attempts |
| Download.TrySources | main.py:117-146 | Sources are tried in order; request i goes to source `SourceIndex(i)`, three requests per source; the run succeeds exactly when some answer within three per source does, and stops at the first success; a failing run makes every attempt of every source |
| Download.SourceIndexIsQuotient | main.py:117-119 | The source of request i is `i / 3`: each source is given three attempts before the next |
| Download.DownloadBeatmap | main.py:102-149 | At most six requests: three to the primary URL, then the mirror; success exactly when one of the first six answers succeeds; the run stops at the first success and makes six requests otherwise; the archive is saved under the sanitised name exactly on success |
| Download.FirstSuccess | main.py:119-141 | The first answer in a range that succeeds, or the end of the range when none does |
| Download.DownloadStopsAtFirstSuccess | main.py:117-149 | The download makes exactly the requests up to and including the first successful one, or all six when none succeeds |
| Download.RefusalRetriesSameSource | main.py:119-125 | A 425 and then a success makes two requests, both to the primary source, and saves the archive |
| Download.RefusalsExhaustPrimary | main.py:119-125 | Three 425 answers use up the primary source's attempts, so the fourth request goes to the mirror |
| Download.ArchiveExtension | main.py:112-113 | The extension `splitext` finds in a raw archive name is always `.osz` |
| Download.ArchiveName | main.py:112-113 | Every archive name is free of illegal characters, at most 250 characters long and ends in `.osz` |
| Download.ArchiveNameCut | main.py:112-113 | A raw name of at most 250 characters is only substituted; a longer one is cut to 250 and keeps its first 246 substituted characters |
| Download.ArchiveNameAsWritten | main.py:112-113 | For archive names the corrected sanitiser and the one as written agree |

## Left out

- Network and disk I/O are not modelled. This covers `http.client`, `requests`, the `tqdm` progress bar and the chunked file write. Each download request is reduced to its outcome, supplied by the oracle `net`.
- Download.DownloadBeatmap: does not model a transfer that fails halfway. A `RequestException` while streaming the body counts as a failed attempt, but the partly written file stays on disk; `Success` stands for a complete transfer.
- An `OSError` from `open` (for example a missing download folder) is not modelled. Python does not catch it in `download_beatmap`, so it would end the program.
- The `time.sleep` delays (5 s after a 425, 2 s after an error) have no observable effect besides time, so they are not modelled.
- Configuration (`load_config`, `save_config`, `set_download_folder`) and the interactive prompts of `main` are not modelled, because they are console and file I/O. The folder chosen there is stored in a global, but it is never passed to `download_beatmap`, so downloads always go to the default folder. `os.path.join` and `os.path.expandvars` are not modelled; the model keeps only the file name.
- `search_beatmaps` sending the request and decoding the answer is not modelled. A non-200 status or a JSON decoding error returns `None`, which the model merges with a JSON `null` as `Payload.JNull`, because `main` cannot tell them apart either.
- Payload.Json: numbers are integers only; JSON floats are not modelled.
- Payload.Str: `str()` of a list or dict, which Python renders with `repr`, is replaced by the fixed markers "[...]" and "{...}".
- Filename.Sanitize: the 250-character bound is stated only for names whose extension fits the limit, because the code as written breaks it otherwise (see Findings).
- Filename.SanitizeIdempotent: requires the extension to fit the limit. With an overlong extension, the first pass's output can still be too long and is shortened again.
- Search.SearchPathRoundTrip: requires that no query or sort key contains `&` and no sort key contains `,`. The path is not URL-encoded, so other filters are ambiguous (`Search.RawQueryCollision`). Characters that `http.client` rejects in a request line, such as spaces, are not modelled.
- `gui.py` is not modelled. It is a Tkinter front end that runs the same search and download on background threads.

## Findings

| source | as written | input that shows it | evidently intended | confidence | as-written member | corrected member |
|---|---|---|---|---|---|---|
| main.py:97-99 | the stem is sliced to 250 minus the extension's length and the whole extension is appended; when the extension is longer than 250 characters that bound is negative, so the slice only removes the last `len(ext) - 250` characters of the stem and the result is `max(len(ext), len(stem) + 250)` characters long (the stem vanishes entirely only when `len(stem) <= len(ext) - 250`) | `"a." + "b" * 250` (252 characters) comes out 251 characters long | the sanitised name never exceeds 250 characters | medium, not executed | Filename.LongExtensionOverflows | Filename.SanitizeBounded |

Archive names built by `download_beatmap` always have the extension `.osz`, so there the two sanitisers agree (`Download.ArchiveNameAsWritten`). The download model uses the corrected one.
