# Image upload and idempotent analysis — a Dafny model

This project models the core of a small image-analysis service: the upload path that
validates a declared MIME type and a content size and then stores the bytes under a fresh
identifier, and the analysis engine that answers `analyze(id)` from a record cache, derives a
deterministic pseudo-analysis on a miss, writes it once, and fails with "image not found"
when neither a cached record nor an image exists.

The filesystem is modelled as one object, `FileStorage.Storage`, with two map fields:

- `images` maps a blob's file name `id.ext` to its bytes.
- `records` maps an image id to the content of `id.json`. That content is one of three things:
  - a readable result;
  - `Corrupt`: text that is not valid JSON, or a read that fails with an I/O error;
  - `Undecodable`: bytes that are not text in the platform encoding.

The storage operations are methods on that class. `image_exists` and `get_image_path` are
loops over the configured extensions, in dictionary order, with an early return.
`analyze_image` and `process_upload` are module-level methods that take the store, as the
Python functions act on the one filesystem.

Modules, one per source file:

- `Config`: the constants of `app/config.py`. `MIME_TO_EXTENSION` is a list of entries, so its
  value order jpg, jpg, png is kept.
- `Errors`: the exception classes of `app/services/exceptions.py`, as an error-kind datatype.
- `Validators`: the pure predicates of `app/utils/validators.py`.
- `Schemas`: the result record, with the JSON field names.
- `FileStorage`: `app/utils/file_storage.py`.
- `AnalysisService`: `app/services/analysis_service.py`.
- `ImageService`: `app/services/image_service.py`.
- `Wrappers`: `Option` and `Result`.

The derivation (`AnalysisService.Derive`) is a pure function of the id. It draws in the
source's order: a skin type, an issue count in 1..3, a sample of that many issues without
replacement, and a confidence draw. The digest and the generator are stand-ins: a polynomial
hash reduced modulo 2^32 and a linear congruential step. The sampler removes a drawn entry
the way CPython's `random.sample` does, with the last pool entry taking its place. Only the
shape of the result is promised, not the bit-exact values of the original. Confidence is kept
as whole hundredths, so 0.70..0.95 becomes 70..95.

## Model

| member | source | states |
|---|---|---|
| Config.ExtensionValues | app/config.py:17-21 | the mapping's values in insertion order are jpg, jpg, png |
| Config.Lookup | app/config.py:17-21 | dictionary lookup: a value exists iff some entry has the key, and the value is that of the first entry with the key |
| Config.ExtensionFor | app/services/image_service.py:43 | the mapping has an extension for a type iff the type is on the allow-list: jpg for image/jpeg and image/jpg, png for image/png |
| Validators.ToLower | app/utils/validators.py:16 | lower-casing keeps the length and lowers every character in place |
| Validators.ToLowerIdempotent | app/utils/validators.py:16 | lower-casing twice is lower-casing once |
| Validators.LowerCaseIsFixed | app/config.py:10-14 | a string with no upper-case letter, such as each allowed type, is its own lower-case form |
| Validators.ToLowerEqualIff | app/utils/validators.py:16 | two strings lower to the same string iff they are equal up to letter case |
| Validators.ValidateMimeType | app/utils/validators.py:16 | a type is accepted iff it equals one of image/jpeg, image/jpg, image/png up to letter case |
| Validators.MimeTypeDependsOnLowerCase | app/utils/validators.py:16 | a type and its lower-case form get the same verdict |
| Validators.MimeTypeCaseInsensitive | app/utils/validators.py:16 | two types that differ only in letter case get the same verdict |
| Validators.MimeTypeAcceptsAnyCase | app/utils/validators.py:16 | IMAGE/PNG and Image/Jpeg are accepted |
| Validators.MimeTypeRejects | app/services/image_service.py:27-29 | the empty string (a missing content type) and text/plain are rejected |
| Validators.ValidateFileSize | app/utils/validators.py:29 | a size is accepted iff 0 < size <= 5242880 |
| Validators.FileSizeBoundaries | app/utils/validators.py:29 | 0 is rejected, 5242880 accepted, 5242881 rejected |
| Validators.ValidatedMimeTypeHasExtension | app/services/image_service.py:43 | after MIME validation the lookup of the lower-cased type succeeds with jpg or png, so the "jpg" default is never used |
| FileStorage.ImageFileName | app/utils/file_storage.py:22 | the blob name is the id, a dot, then the extension, and nothing else |
| FileStorage.Storage.SaveImage | app/utils/file_storage.py:22-24 | exactly the blob `id.ext` is (over)written with the content; records untouched; with a configured extension the image then exists |
| FileStorage.Storage.ImageExists | app/utils/file_storage.py:37-41 | true iff a blob `id.ext` exists for some extension among the mapping's values |
| FileStorage.Storage.GetImagePath | app/utils/file_storage.py:54-58 | a path is returned iff the image exists; it is the existing blob for the first extension in mapping order that has one, so jpg wins over png |
| FileStorage.Storage.SaveAnalysisResult | app/utils/file_storage.py:72-74 | only record `id` changes, to the readable result; images untouched; the record can then be read back |
| FileStorage.Storage.LoadAnalysisResult | app/utils/file_storage.py:87-95 | nothing when the record is missing or cannot be read back (corrupt or undecodable), otherwise the stored result; never an error |
| FileStorage.Storage.LoadAnalysisResultAsWritten | app/utils/file_storage.py:87-95 | as written: a missing or corrupt record gives nothing, a readable one its result, and an undecodable one raises out of the load |
| FileStorage.UndecodableRecordEscapes | app/utils/file_storage.py:91-95 | for a store whose record `x.json` is undecodable, the as-written load raises and the corrected load returns nothing |
| FileStorage.SaveThenLoad | app/utils/file_storage.py:72-73 | round trip: loading right after saving returns the saved result; the records are the old ones with only `id` set to it; images unchanged |
| AnalysisService.RemoveBySwap | app/services/analysis_service.py:34 | removing a drawn pool entry by moving the last entry into its place drops exactly that entry and keeps the pool duplicate-free |
| AnalysisService.Sample | app/services/analysis_service.py:34 | a sample of k labels has length k, draws only from the pool, and has no duplicates when the pool has none |
| AnalysisService.Derive | app/services/analysis_service.py:25-44 | the result carries the input id, a skin type from the 4 labels, 1 to 3 distinct issues from the 5 labels, and a confidence of 70..95 hundredths |
| AnalysisService.AnalyzeImage | app/services/analysis_service.py:63-78 | cache hit: the stored result, no write, image store not consulted; no record and no image: ImageNotFound, nothing changes; otherwise records[id] := Derive(id), returned; images never change; the store invariant that every readable record is its id's derivation is kept |
| AnalysisService.AnalyzeTwice | app/services/analysis_service.py:63-66 | idempotence: a second call returns what the first did, and the stores end as after one call |
| ImageService.ProcessUpload | app/services/image_service.py:27-48 | MIME check first (InvalidFileType whatever the size, a missing type read as ""), then size check (FileTooLarge for 0 or over 5 MiB); on failure the image store is unchanged; on success exactly one new blob `freshId.ext` with ext the mapped jpg/png, holding the content, and freshId is returned; records never change |

## Findings

| source | as written | input that shows it | evidently intended | confidence | as-written member | corrected member |
|---|---|---|---|---|---|---|
| app/utils/file_storage.py:91-95 | only `json.JSONDecodeError` and `IOError` are caught. `read_text()` on bytes that do not decode raises `UnicodeDecodeError`, which is a `ValueError` and not an `IOError`, so it escapes the load and `analyze_image` fails | a record file `x.json` holding the single byte 0xFF under a UTF-8 locale, then `analyze_image("x")` | an unreadable record is read as "no record", so the engine re-derives and overwrites it | medium (depends on the platform encoding); not executed | FileStorage.Storage.LoadAnalysisResultAsWritten | FileStorage.Storage.LoadAnalysisResult |

The rest of the model, `AnalysisService.AnalyzeImage` included, uses the corrected load.

## Left out

- HTTP routing, status codes, the health endpoint and logging: transport and side-effect-only output.
- Identifier generation (`uuid4`): the fresh id is a parameter, and `ProcessUpload` requires that no image is stored under it yet. Uniqueness of random identifiers is probabilistic and cannot be proved.
- The digest (MD5) and the Mersenne Twister draws: foreign algorithms. `Derive` uses stand-ins with the same draw order, so its outputs are not bit-identical to the original's; only the result's shape is modelled.
- Floating-point confidence and `round(x, 2)`: confidence is an integer number of hundredths.
- JSON encoding and decoding: a record is `Readable(result)`, `Corrupt` or `Undecodable`, and saving then loading a result returns it unchanged. Valid JSON that is not a result object (`null`, a list) is not modelled.
- Validators.ToLower: lowers only the ASCII letters A-Z, while Python's `str.lower` is Unicode-wide. The verdict on the allow-list is the same. The only non-ASCII characters whose lower-case form holds an ASCII letter are the Kelvin sign, which lowers to `k`, and the capital dotted I, which lowers to `i` plus a combining dot. None of the three allowed types contains `k` or a combining dot.
- Directory creation and absolute paths: paths are the blob or record file names inside their directory.
- Path aliasing: ids are assumed to name distinct files inside their directory, as generated uuid4 ids do. The source builds file names by path joining, so ids such as `./X`, `a//b` and `a/b`, absolute ids, ids with `../`, or ids that differ only in case on a case-insensitive filesystem can name the same file. The model keys both stores by the id string, so these ids never collide in it. `AnalysisService.AnalyzeImage`'s promises that a result is `Derive(id)` and that every readable record is its own id's derivation hold only under this assumption. For example, analysing `./X` writes a result carrying image id `./X` into `X.json`, and analysing `X` then returns it.
- Concurrent duplicate analyses and last-writer-wins: concurrency is not modelled. A repeated write of `Derive(id)` stores the same value, since `Derive` is a function.
- I/O failures on writes: `save_image` and `save_analysis_result` always succeed in the model. In the source a failed write raises out of the request, since nothing catches it.
- Unreadable records on load: `Corrupt` and `Undecodable` stand for them; see Findings for the one the source does not catch.
