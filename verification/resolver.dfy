/** Resolution of a configuration name: the primary store first, the file backend as
    failover, with the optional metadata of a primary document copied into the result. */
module Resolver {
  import opened Wrappers
  import opened Json
  import opened Stores
  import opened FileBackend

  /** Which backend served a request (the `method` field of a reply). */
  datatype Backend = Mongo | File

  /** A resolved configuration: its data, the backend that served it, and the optional
      fields copied from the document. */
  datatype Resolution = Resolution(config: Json, via: Backend, meta: Meta)

  predicate PrimaryHit(st: State, name: string)
  {
    st.primary.Available? && name in st.primary.docs
  }

  /** The file read as a resolution: no metadata, served by the file backend. */
  function FromFile(files: map<string, FileContent>, name: string): Result<Resolution, Status>
  {
    match ConfigFromFile(files, name)
    case Ok(j) => Ok(Resolution(j, File, NoMeta))
    case Err(e) => Err(e)
  }

  /** `r` is what failing over to the file of `name` gives: its content with no metadata,
      or the read's 404 or 400. */
  predicate ServesFile(r: Result<Resolution, Status>, files: map<string, FileContent>, name: string)
  {
    match ConfigFromFile(files, name)
    case Ok(j) => r == Ok(Resolution(j, File, NoMeta))
    case Err(e) => r == Err(e)
  }

  /** `config_from_mongo(result, name, failover)` with `ignore_not_found` off. When the
      store is unreachable the handler reads the file (or raises 404), and control then
      falls through to the lookup of a cursor that was never assigned, whose exception
      reads the same file again; one read stands for both. */
  function ConfigFromMongo(st: State, name: string, failover: bool): (r: Result<Resolution, Status>)
    // a hit serves the document's data and copies exactly the fields it carries
    ensures PrimaryHit(st, name) ==>
              r == Ok(Resolution(st.primary.docs[name].data, Mongo, st.primary.docs[name].meta))
    // a miss or an outage: the file read with failover, 404 without
    ensures !PrimaryHit(st, name) && failover ==> ServesFile(r, st.files, name)
    ensures !PrimaryHit(st, name) && !failover ==> r == Err(NotFound)
    // provenance: what was served is what the named backend holds
    ensures r.Ok? && r.value.via == Mongo ==>
              PrimaryHit(st, name) && st.primary.docs[name] == Doc(r.value.config, r.value.meta)
    ensures r.Ok? && r.value.via == File ==>
              failover && !PrimaryHit(st, name) && name in st.files &&
              st.files[name] == Valid(r.value.config) && r.value.meta == NoMeta
    ensures r.Err? ==> r.error == NotFound || r.error == BadRequest
  {
    match st.primary
    case Unavailable =>
      if failover then FromFile(st.files, name) else Err(NotFound)
    case Available(docs) =>
      if name in docs then Ok(Resolution(docs[name].data, Mongo, docs[name].meta))
      else if failover then FromFile(st.files, name)
      else Err(NotFound)
  }

  /** `config_from_mongo(result, name, failover, ignore_not_found=True)`: on a reachable
      store it returns before reading the cursor, so nothing is resolved and no metadata
      copied (None); on an unreachable one the exception handler has already read the file
      (or raised 404). */
  function ConfigFromMongoIgnoringMissing(st: State, name: string, failover: bool)
    : (r: Result<Option<Resolution>, Status>)
    ensures st.primary.Available? ==> r == Ok(None)
    ensures st.primary.Unavailable? && !failover ==> r == Err(NotFound)
    ensures st.primary.Unavailable? && failover ==>
              (r.Ok? <==> ConfigFromFile(st.files, name).Ok?) &&
              (r.Ok? ==> r.value == Some(Resolution(ConfigFromFile(st.files, name).value, File, NoMeta))) &&
              (r.Err? ==> r.error == ConfigFromFile(st.files, name).error)
  {
    match st.primary
    case Unavailable =>
      if failover then
        match FromFile(st.files, name)
        case Ok(res) => Ok(Some(res))
        case Err(e) => Err(e)
      else Err(NotFound)
    case Available(_) => Ok(None)
  }
}
