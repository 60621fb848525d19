# Configurator: configuration resolution across two backends

This project models the core of the configurator service (`api/configurator.py`), a registry of
named JSON configurations. Each configuration lives as a document in a MongoDB collection (the
primary store), keyed by its `type`. A JSON file per configuration is the failover and export copy
(the file backend). The model covers:

- resolution of a name: the primary store first, the file as failover;
- the copy of the optional metadata fields `access_list`, `definition`, `display_name`,
  `version` and `is_current`;
- the access gate driven by `access_list`;
- the read, export and import request handlers;
- the consistency check between the two backends.

Both backends are abstract state (`Stores.State`):

- the primary store is `Unavailable` or a map from `type` to a document (data plus optional fields);
- the file store maps names to `Valid(json)` or `Malformed` content;
- backups are a map keyed by name and an opaque timestamp.

Every handler is a pure function. Read handlers return `Result<Reply, Status>`. Write handlers
return a `Step`: the state afterwards and the reply. A write that fails after an earlier write
succeeded keeps that earlier effect, as the source does. One example: `import_json_config`
updates MongoDB, then the file export fails with 400, and the store update stays.

Statuses are the HTTP codes the handlers raise: 400, 401 and 404. There is also 500
(`InternalError`) for exceptions the handlers never catch. Examples are a `TypeError` from `in`,
`len` or item assignment on a JSON value of the wrong kind, and `json.loads` of an unparsable
`access_list`.

The primary-store write is modelled as MongoDB `$set` with `upsert=True`. The fields written
are replaced. Every other field of an existing document is left as it was
(`PrimaryStore.SetApplied`).

## Quirks of the code the model keeps

- Imports do not replace the whole document. `$set` keeps every field the import does not write.
- `export_config` writes the file without a backup. Only `import_json_config` asks for one.
- `import_config` never copies looked-up metadata. Its lookup runs with `ignore_not_found`,
  which returns before anything is copied. Metadata survives re-import only because `$set`
  leaves it alone.
- `get_config_entry` applies `len` to the entry's value, so a number, boolean or null entry
  answers 500 rather than the value. Data `{"a": 1, "b": 2}` with entry `"b"` gives 500
  (`Properties.EntryLookupOnNumbers`).
- An entry that is absent is 404 even for a caller the access list would refuse. The entry check
  runs before the access gate.
- One missing or malformed file aborts the whole consistency check with that file's error.
  It is not recorded as a mismatch.
- The model raises a primary-store outage at the `find` call, as the `try` around it is written
  (see "Primary-store faults" below). That choice produces two outcomes of the model that the
  running program, whose cursor is lazy, does not give:
  - `import_config` on an unreachable store answers 404 in the model, raised by its metadata
    lookup. The program returns from that lookup and answers 400 when `update_one` raises.
  - `get_validations` on an unreachable store answers 400 in the model. The program raises
    uncaught while iterating the cursor and answers 500.

## Model

| member | source | states |
|---|---|---|
| `FileBackend.ConfigFromFile` | api/configurator.py:122-140 | A file read yields the parsed content when the file exists and parses, 404 when there is no file and 400 when the text is not JSON. |
| `FileBackend.DumpToFile` | api/configurator.py:178-207 | A successful export maps the name to exactly the exported data, a requested backup of an existing file saves its previous content under the name and timestamp, a failed copy or write answers 400 with the file left as it was, and the primary store never changes. |
| `FileBackend.DumpThenRead` | api/configurator.py:197-199 | Reading back after a successful export yields exactly the exported value, and every other file reads as before. |
| `PrimaryStore.Overlay` | api/configurator.py:522-526 | Each field the caller supplied wins and every other field keeps its looked-up value. |
| `PrimaryStore.FormMeta` | api/configurator.py:602-604 | An optional field is present exactly when the form has a field of that name, with the form's value. |
| `PrimaryStore.SetDoc` | api/configurator.py:529-530 | The `$set` document has the new data and every supplied field, keeps every other field of an existing document, and a new document has only the supplied fields. |
| `PrimaryStore.Upsert` | api/configurator.py:529-537 | An unreachable store answers 400, and otherwise the collection is `$set`-updated at the name with no other document changed and `updated` reported exactly when a document already existed. |
| `PrimaryStore.SetDataKeepsMeta` | api/configurator.py:672-675 | Setting only `type` and `data` on an existing document keeps all of its metadata. |
| `Resolver.ConfigFromMongo` | api/configurator.py:143-175 | A hit serves the document's data with exactly the fields it carries from MongoDB, a miss or outage is the file read with failover and 404 without, and whatever is served is what the named backend holds. |
| `Resolver.ConfigFromMongoIgnoringMissing` | api/configurator.py:143-163 | With `ignore_not_found` a reachable store resolves nothing, and an unreachable one gives the file read with failover and 404 without. |
| `Access.AuthenticateAccess` | api/configurator.py:364-377 | No access list admits every caller, and a list admits its array elements, object keys or string substrings, raising 500 exactly when it does not parse or is a number, boolean or null. |
| `Access.AuthorizedIffListed` | api/configurator.py:371-374 | With an access list encoding `names`, a caller is authorized exactly when it is one of `names`. |
| `Access.AnonymousPassesUnknownEntry` | api/configurator.py:89-94 | A caller without a user name, identified as "unknown", passes every access list that names "unknown". |
| `Handlers.Payload` | api/configurator.py:595-600 | A payload exists exactly when the `config` form field is present and parses, and it is the parsed value. |
| `Handlers.GetConfig` | api/configurator.py:400-407 | A resolution error is the reply, a refused caller gets 401, and an admitted caller gets the resolved data, source and metadata, or 500 when the data is a scalar. |
| `Handlers.GetConfigEntry` | api/configurator.py:442-453 | An absent entry is 404 for every caller, a non-object configuration never yields an entry, a refused caller gets 401, and an admitted caller gets the entry's value with the resolved metadata, or 500 when that value is a scalar. |
| `Handlers.ExportConfig` | api/configurator.py:476-485 | Without a primary document the reply is 404 and nothing changes, a refused caller gets 401 and a raising gate 500, a failed write is 400, and a successful export writes the stored data to the file without a backup, leaves the primary store alone and reports the document's metadata. |
| `Handlers.ImportConfig` | api/configurator.py:508-538 | A missing file is 404, a malformed one 400 and an unreachable store 404, each before any change, and success `$set`s the file's data with the caller's fields, reports `updated` exactly when the document existed, and never touches files. |
| `Handlers.ImportJsonConfig` | api/configurator.py:585-616 | Every failure is 400, a missing or unparsable payload or an unreachable store fails before any change, and otherwise the payload is `$set` with the caller's fields, the file gets the payload, and the previous file is backed up, with the store update kept when the export fails. |
| `Handlers.SetEntry` | api/configurator.py:670 | Item assignment on an object sets exactly `entry` and keeps all other keys, and on any other value it raises 500. |
| `Handlers.ExportStored` | api/configurator.py:684-686 | The export after an entry import writes the stored document's data without a backup, or answers 404 when the primary store has no document. |
| `Handlers.ImportJsonConfigEntry` | api/configurator.py:651-689 | Payload errors are 400, resolution errors propagate and a non-object configuration is 500, each before any change, an outage after resolution is 400 with nothing changed, and otherwise the resolved object with exactly `entry` set to the payload is stored with the old metadata, even when the export then fails with 400, and success writes it to the file and reports `updated` exactly when the document existed, together with the object's length. |
| `Validation.ValidateConfigtype` | api/configurator.py:210-230 | File errors propagate, and otherwise the result is whether the digests of stored data and file content agree. |
| `Validation.MatchIffSameData` | api/configurator.py:219-228 | With an injective digest, a configuration validates exactly when its file holds the stored data. |
| `Validation.GetValidations` | api/configurator.py:317-329 | An unreachable store is 400, the check succeeds exactly when every stored configuration has a readable file and then maps each name to whether its digests agree, and a failure carries the error of the first bad file in cursor order. |
| `Properties.ImportJsonThenGet` | api/configurator.py:601-615 | After importing an object whose access list names `names`, a read succeeds exactly for callers in `names` and returns the imported data from MongoDB, and every other caller gets 401. |
| `Properties.ImportJsonTwice` | api/configurator.py:605-611 | A repeated import of the same payload reports `updated` and leaves the store and the file as the first import left them. |
| `Properties.ImportJsonThenValidate` | api/configurator.py:615 | After a successful import the configuration validates as a match, whatever the digest. |
| `Properties.ExportThenRead` | api/configurator.py:481-484 | After a successful export the file reads back as the stored document's data. |
| `Properties.OutageOpensAccess` | api/configurator.py:155-159 | During a primary-store outage every caller reads the file copy, with no access list applied. |
| `Properties.ImportEntryThenGetEntry` | api/configurator.py:668-679 | After an entry import, a caller the old access list admits reads the imported value from MongoDB with the document's old metadata, or gets 500 when the value is a number, boolean or null. |
| `Properties.EntryLookupOnNumbers` | api/configurator.py:446-452 | In data `{"a": 1, "b": 2}` entry `"b"` answers 500 and entry `"c"` answers 404. |

## Left out

- Transport: Flask routing, CORS, the `OPTIONS` short-circuits, `jsonify`/`generate_response`, the error handler's JSON body, swagger and template endpoints.
- Identity: JWT decoding in `initialize_result` is not modelled. The caller's identity is an input string. `Stores.Anonymous` is the `"unknown"` default a caller gets without a token.
- Statistics: the `stats` endpoint, request/endpoint/user/import/export counters, uptime and last-transaction times. This is global observability state that no decision reads.
- Listing: `get_configurations`, the name listing with its `glob` fallback, is not part of the core modelled here.
- JSON text: `json.loads` is the abstract `Codec.parse`. The MD5 of `json.dumps(..., sort_keys=True)` is the abstract `Codec.canon`, and MD5 collisions are ignored. The 4-space file formatting is not modelled. A file holds a parsed value or is malformed.
- Numbers: JSON numbers are integers. Floating point, and Python's `1 == 1.0`, are not modelled.
- Paths: file paths, `export_path`, `export_size` (`os.path.getsize`) and the real backup timestamp are left out. The timestamp is an opaque input.
- Reply fields: replies carry `updated`/`inserted`, the config, its metadata, its source and its length. `matched_count`, `modified_count` and `upserted_id` are not modelled.
- File faults: a failed write is one whose `open` fails, so the file is untouched. Torn or partial writes are not modelled.
- Primary-store faults: the only failure is unavailability for the whole request. An outage is raised at `find`, as the `try` around it is written, not lazily when the cursor is first read. The consequences for `import_config` and `get_validations` are listed above. A write error on a reachable store is not modelled.
- Store shape: documents are unique per `type` (a map). Metadata values are strings. Non-string `access_list` values stored directly in MongoDB are not modelled.
- Concurrency: the non-atomic read-merge-write race between requests and OS-level file interleaving are not modelled.
- Validation order: the order of the cursor of `find({})` is an input listing the collection's names.
- Strings: a string's length is its number of characters. A Dafny `char` is a Unicode scalar value, so this matches Python's code-point count except for strings holding lone surrogates, which Python allows and the model cannot represent.
