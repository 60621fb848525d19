/** The request handlers of the configurator as state transitions: the read flows
    (`get_config`, `get_config_entry`), export, and the three import flows. */
module Handlers {
  import opened Wrappers
  import opened Json
  import opened Stores
  import opened FileBackend
  import opened PrimaryStore
  import opened Resolver
  import opened Access

  /** What a successful request reports. */
  datatype Reply =
    | Served(config: Json, via: Backend, meta: Meta, length: nat)
    | Exported(meta: Meta)
    | Imported(updated: bool)
    | EntryImported(updated: bool, config: Json, length: nat)

  /** The parsed `config` form field of an import; None when it is missing or not JSON. */
  function Payload(form: map<string, string>, codec: Codec): (r: Option<Json>)
    ensures r.Some? <==> "config" in form && codec.parse(form["config"]).Some?
    ensures r.Some? ==> r == codec.parse(form["config"])
  {
    if "config" in form then codec.parse(form["config"]) else None
  }

  /** The configuration a read request resolves: primary first, failover allowed. */
  function Lookup(st: State, name: string): Result<Resolution, Status>
  {
    ConfigFromMongo(st, name, true)
  }

  /** `get_config`: resolve with failover, then apply the access gate; `len` of a scalar
      configuration raises (500). */
  function GetConfig(st: State, name: string, user: string, codec: Codec): (r: Result<Reply, Status>)
    ensures Lookup(st, name).Err? ==> r == Err(Lookup(st, name).error)
    ensures r.Ok? ==>
              && r.value.Served?
              && Lookup(st, name) == Ok(Resolution(r.value.config, r.value.via, r.value.meta))
              && AuthenticateAccess(r.value.meta, user, codec) == Ok(true)
              && Length(r.value.config) == Some(r.value.length)
    ensures Lookup(st, name).Ok? && AuthenticateAccess(Lookup(st, name).value.meta, user, codec).Err? ==>
              r == Err(InternalError)
    ensures Lookup(st, name).Ok? && AuthenticateAccess(Lookup(st, name).value.meta, user, codec) == Ok(false) ==>
              r == Err(Unauthorized)
    // an admitted caller gets the configuration, unless `len` of a scalar raises
    ensures Lookup(st, name).Ok? && AuthenticateAccess(Lookup(st, name).value.meta, user, codec) == Ok(true) ==>
              var res := Lookup(st, name).value;
              && (Length(res.config).Some? ==> r == Ok(Served(res.config, res.via, res.meta, Length(res.config).value)))
              && (Length(res.config).None? ==> r == Err(InternalError))
  {
    match Lookup(st, name)
    case Err(e) => Err(e)
    case Ok(Resolution(config, via, meta)) =>
      match AuthenticateAccess(meta, user, codec)
      case Err(e) => Err(e)
      case Ok(false) => Err(Unauthorized)
      case Ok(true) =>
        match Length(config)
        case None => Err(InternalError)
        case Some(n) => Ok(Served(config, via, meta, n))
  }

  /** `get_config_entry`: resolve with failover, look the entry up with Python's `in`,
      and only then apply the access gate. Subscripting an array or a string by the entry
      name raises (500), and so does `len` of a scalar entry value. */
  function GetConfigEntry(st: State, name: string, entry: string, user: string, codec: Codec)
    : (r: Result<Reply, Status>)
    ensures Lookup(st, name).Err? ==> r == Err(Lookup(st, name).error)
    // an absent entry is 404 whoever asks
    ensures Lookup(st, name).Ok? && Lookup(st, name).value.config.JObj? &&
            entry !in Lookup(st, name).value.config.fields ==>
              r == Err(NotFound)
    // a configuration that is not an object never yields an entry: 404 when `in` finds
    // nothing, 500 when `in` raises or the subscript does
    ensures Lookup(st, name).Ok? && !Lookup(st, name).value.config.JObj? ==>
              r == Err(if Contains(Lookup(st, name).value.config, entry) == Some(false) then NotFound
                       else InternalError)
    ensures r.Ok? ==>
              && r.value.Served?
              && Lookup(st, name).Ok?
              && Lookup(st, name).value.config.JObj?
              && entry in Lookup(st, name).value.config.fields
              && r.value.config == Lookup(st, name).value.config.fields[entry]
              && r.value.meta == Lookup(st, name).value.meta
              && AuthenticateAccess(r.value.meta, user, codec) == Ok(true)
    ensures Lookup(st, name).Ok? && Lookup(st, name).value.config.JObj? &&
            entry in Lookup(st, name).value.config.fields ==>
              var res := Lookup(st, name).value;
              var value := res.config.fields[entry];
              && (AuthenticateAccess(res.meta, user, codec) == Ok(false) ==> r == Err(Unauthorized))
              && (AuthenticateAccess(res.meta, user, codec).Err? ==> r == Err(InternalError))
              // a present entry reaches an admitted caller, unless `len` of a scalar raises
              && (AuthenticateAccess(res.meta, user, codec) == Ok(true) && Length(value).Some? ==>
                    r == Ok(Served(value, res.via, res.meta, Length(value).value)))
              && (AuthenticateAccess(res.meta, user, codec) == Ok(true) && Length(value).None? ==>
                    r == Err(InternalError))
  {
    match Lookup(st, name)
    case Err(e) => Err(e)
    case Ok(Resolution(config, via, meta)) =>
      match Contains(config, entry)
      case None => Err(InternalError)
      case Some(false) => Err(NotFound)
      case Some(true) =>
        if !config.JObj? then Err(InternalError)
        else
          var value := config.fields[entry];
          match AuthenticateAccess(meta, user, codec)
          case Err(e) => Err(e)
          case Ok(false) => Err(Unauthorized)
          case Ok(true) =>
            match Length(value)
            case None => Err(InternalError)
            case Some(n) => Ok(Served(value, via, meta, n))
  }

  /** `export_config`: resolve from the primary store only, apply the access gate, and
      write the file without a backup. */
  function ExportConfig(st: State, name: string, user: string, codec: Codec, fault: IoFault)
    : (r: Step<Reply>)
    ensures r.after.primary == st.primary
    ensures r.after.backups == st.backups
    ensures !PrimaryHit(st, name) ==> r == Step(st, Err(NotFound))
    ensures r.reply.Err? ==> r.after == st
    ensures r.reply.Ok? ==>
              && PrimaryHit(st, name)
              && AuthenticateAccess(st.primary.docs[name].meta, user, codec) == Ok(true)
              && r.after.files == st.files[name := Valid(st.primary.docs[name].data)]
    ensures PrimaryHit(st, name) && AuthenticateAccess(st.primary.docs[name].meta, user, codec) == Ok(false) ==>
              r.reply == Err(Unauthorized)
    ensures PrimaryHit(st, name) && AuthenticateAccess(st.primary.docs[name].meta, user, codec).Err? ==>
              r.reply == Err(InternalError)
    ensures PrimaryHit(st, name) && AuthenticateAccess(st.primary.docs[name].meta, user, codec) == Ok(true) ==>
              (r.reply.Ok? <==> !fault.WriteFault?)
    // a failed write is the 400 of `dump_to_file`
    ensures PrimaryHit(st, name) && AuthenticateAccess(st.primary.docs[name].meta, user, codec) == Ok(true) &&
            fault.WriteFault? ==>
              r.reply == Err(BadRequest)
    ensures r.reply.Ok? ==> r.reply.value == Exported(st.primary.docs[name].meta)
  {
    match ConfigFromMongo(st, name, false)
    case Err(e) => Step(st, Err(e))
    case Ok(Resolution(config, via, meta)) =>
      match AuthenticateAccess(meta, user, codec)
      case Err(e) => Step(st, Err(e))
      case Ok(false) => Step(st, Err(Unauthorized))
      case Ok(true) =>
        var w := DumpToFile(st, name, config, false, "", fault);
        if w.reply.Ok? then Step(w.after, Ok(Exported(meta)))
        else Step(w.after, Err(w.reply.error))
  }

  /** The metadata a lookup copied into its result; none when nothing was resolved. */
  function StoredMeta(stored: Option<Resolution>): Meta
  {
    if stored.Some? then stored.value.meta else NoMeta
  }

  /** `import_config`: read the file, look up stored metadata (no failover, missing document
      ignored), lay the caller's form fields over it, and `$set` the result. That lookup
      returns before copying anything, so the looked-up metadata is always empty and fields
      the form leaves out survive only because `$set` does not touch them. */
  function ImportConfig(st: State, name: string, form: map<string, string>): (r: Step<Reply>)
    ensures r.after.files == st.files && r.after.backups == st.backups
    ensures r.reply.Err? ==> r.after == st
    ensures name !in st.files ==> r.reply == Err(NotFound)
    ensures name in st.files && st.files[name].Malformed? ==> r.reply == Err(BadRequest)
    // an outage surfaces as the 404 of the metadata lookup, before any write
    ensures name in st.files && st.files[name].Valid? && st.primary.Unavailable? ==> r.reply == Err(NotFound)
    ensures r.reply.Ok? <==> name in st.files && st.files[name].Valid? && st.primary.Available?
    ensures r.reply.Ok? ==>
              && r.reply.value == Imported(name in st.primary.docs)
              && r.after.primary.Available?
              && SetApplied(st.primary.docs, r.after.primary.docs, name, st.files[name].json, FormMeta(form))
  {
    match ConfigFromFile(st.files, name)
    case Err(e) => Step(st, Err(e))
    case Ok(data) =>
      match ConfigFromMongoIgnoringMissing(st, name, false)
      case Err(e) => Step(st, Err(e))
      case Ok(stored) =>
        match Upsert(st.primary, name, data, Overlay(FormMeta(form), StoredMeta(stored)))
        case Err(e) => Step(st, Err(e))
        case Ok(u) => Step(st.(primary := Available(u.docs)), Ok(Imported(u.updated)))
  }

  /** `import_json_config`: parse the `config` form field, `$set` it with the caller's form
      fields, then export it to the file with a backup of the previous file. */
  function ImportJsonConfig(st: State, name: string, form: map<string, string>, codec: Codec,
                            stamp: string, fault: IoFault): (r: Step<Reply>)
    ensures Payload(form, codec).None? ==> r == Step(st, Err(BadRequest))
    ensures st.primary.Unavailable? ==> r == Step(st, Err(BadRequest))
    ensures r.reply.Err? ==> r.after.files == st.files
    // every failure of this handler, before or after the upsert, is 400
    ensures r.reply.Err? ==> r.reply.error == BadRequest
    ensures Payload(form, codec).Some? && st.primary.Available? ==>
              && r.after.primary.Available?
              && SetApplied(st.primary.docs, r.after.primary.docs, name, Payload(form, codec).value, FormMeta(form))
              && (r.reply.Ok? <==> fault.NoFault? || (fault.BackupFault? && name !in st.files))
              && (r.reply.Ok? ==> r.after.files == st.files[name := Valid(Payload(form, codec).value)])
              && (r.reply.Ok? ==> r.reply.value == Imported(name in st.primary.docs))
              && (name in st.files && !fault.BackupFault? ==>
                    r.after.backups == st.backups[BackupKey(name, stamp) := st.files[name]])
              && (name !in st.files || fault.BackupFault? ==> r.after.backups == st.backups)
  {
    match Payload(form, codec)
    case None => Step(st, Err(BadRequest))
    case Some(data) =>
      match Upsert(st.primary, name, data, FormMeta(form))
      case Err(e) => Step(st, Err(e))
      case Ok(u) =>
        var w := DumpToFile(st.(primary := Available(u.docs)), name, data, true, stamp, fault);
        if w.reply.Ok? then Step(w.after, Ok(Imported(u.updated)))
        else Step(w.after, Err(w.reply.error))
  }

  /** `after` is `before` with exactly the key `entry` set to `value`. */
  ghost predicate EntrySet(before: map<string, Json>, after: map<string, Json>, entry: string, value: Json)
  {
    && after.Keys == before.Keys + {entry}
    && after[entry] == value
    && forall k :: k in before && k != entry ==> after[k] == before[k]
  }

  /** `config[entry] = value`: item assignment on an object; on any other value Python
      raises (500). */
  function SetEntry(config: Json, entry: string, value: Json): (r: Result<Json, Status>)
    ensures r.Ok? <==> config.JObj?
    ensures r.Ok? ==> r.value.JObj? && EntrySet(config.fields, r.value.fields, entry, value)
    ensures r.Err? ==> r.error == InternalError
  {
    match config
    case JObj(m) => Ok(JObj(m[entry := value]))
    case _ => Err(InternalError)
  }

  /** The export that ends an entry import: a fresh lookup in the primary store only (no
      failover), then the file write without a backup and without the access gate. */
  function ExportStored(st: State, name: string, fault: IoFault): (r: Step<()>)
    ensures PrimaryHit(st, name) ==> r == DumpToFile(st, name, st.primary.docs[name].data, false, "", fault)
    ensures !PrimaryHit(st, name) ==> r == Step(st, Err(NotFound))
  {
    match ConfigFromMongo(st, name, false)
    case Ok(Resolution(exported, _, _)) => DumpToFile(st, name, exported, false, "", fault)
    case Err(e) => Step(st, Err(e))
  }

  /** `import_json_config_entry`: parse the `config` form field, resolve the configuration
      (failover allowed), set the one entry, `$set` only `type` and `data`, then export the
      stored document to the file without a backup. */
  function ImportJsonConfigEntry(st: State, name: string, entry: string, form: map<string, string>,
                                 codec: Codec, fault: IoFault): (r: Step<Reply>)
    ensures Payload(form, codec).None? ==> r == Step(st, Err(BadRequest))
    ensures Payload(form, codec).Some? && Lookup(st, name).Err? ==> r == Step(st, Err(Lookup(st, name).error))
    ensures Payload(form, codec).Some? && !PrimaryHit(st, name) && name !in st.files ==> r == Step(st, Err(NotFound))
    ensures Payload(form, codec).Some? && Lookup(st, name).Ok? && !Lookup(st, name).value.config.JObj? ==>
              r == Step(st, Err(InternalError))
    ensures r.after.backups == st.backups
    ensures r.reply.Err? ==> r.after.files == st.files
    ensures r.reply.Ok? ==>
              && r.reply.value.EntryImported?
              && Payload(form, codec).Some?
              && Lookup(st, name).Ok?
              && Lookup(st, name).value.config.JObj?
              && r.reply.value.config.JObj?
              && EntrySet(Lookup(st, name).value.config.fields, r.reply.value.config.fields,
                          entry, Payload(form, codec).value)
              && st.primary.Available?
              && r.reply.value.updated == (name in st.primary.docs)
              && r.after.files == st.files[name := Valid(r.reply.value.config)]
              && r.after.primary.Available? && name in r.after.primary.docs
              && r.after.primary.docs[name].data == r.reply.value.config
    // only `type` and `data` are set: the stored document keeps every metadata field it had
    ensures r.after.primary == st.primary ||
              (&& st.primary.Available? && r.after.primary.Available? && name in r.after.primary.docs
               && SetApplied(st.primary.docs, r.after.primary.docs, name, r.after.primary.docs[name].data, NoMeta))
    ensures r.reply.Ok? ==>
              st.primary.Available? && r.after.primary.Available? &&
              SetApplied(st.primary.docs, r.after.primary.docs, name, r.reply.value.config, NoMeta)
    ensures r.reply.Ok? <==>
              Payload(form, codec).Some? && st.primary.Available? && Lookup(st, name).Ok? &&
              Lookup(st, name).value.config.JObj? && !fault.WriteFault?
    // once an object is resolved: an outage fails the upsert with 400 and changes nothing;
    // otherwise the new object is stored, and stays stored when the export then fails with 400
    ensures Payload(form, codec).Some? && Lookup(st, name).Ok? && Lookup(st, name).value.config.JObj? ==>
              var newConfig := JObj(Lookup(st, name).value.config.fields[entry := Payload(form, codec).value]);
              && (st.primary.Unavailable? ==> r == Step(st, Err(BadRequest)))
              && (st.primary.Available? ==>
                    r.after.primary.Available? &&
                    SetApplied(st.primary.docs, r.after.primary.docs, name, newConfig, NoMeta))
              && (st.primary.Available? && fault.WriteFault? ==> r.reply == Err(BadRequest))
    ensures r.reply.Ok? ==> r.reply.value.length == |r.reply.value.config.fields|
  {
    match Payload(form, codec)
    case None => Step(st, Err(BadRequest))
    case Some(value) =>
      match Lookup(st, name)
      case Err(e) => Step(st, Err(e))
      case Ok(Resolution(config, via, meta)) =>
        match SetEntry(config, entry, value)
        case Err(e) => Step(st, Err(e))
        case Ok(newConfig) =>
          match Upsert(st.primary, name, newConfig, NoMeta)
          case Err(e) => Step(st, Err(e))
          case Ok(u) =>
            var w := ExportStored(st.(primary := Available(u.docs)), name, fault);
            if w.reply.Ok? then Step(w.after, Ok(EntryImported(u.updated, newConfig, |newConfig.fields|)))
            else Step(w.after, Err(w.reply.error))
  }
}
