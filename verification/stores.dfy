/** The two backends as abstract state, the optional metadata a stored configuration
    carries, and the error statuses requests fail with. */
module Stores {
  import opened Wrappers
  import opened Json

  /** HTTP statuses of failed requests: 400, 401 and 404, and `InternalError` (500) for an
      exception the handlers never catch. */
  datatype Status = BadRequest | Unauthorized | NotFound | InternalError

  /** The optional metadata fields a configuration document may carry. */
  datatype Field = AccessList | Definition | DisplayName | Version | IsCurrent
  {
    /** The document key and form-field name of this field. */
    function Key(): string
    {
      match this
      case AccessList => "access_list"
      case Definition => "definition"
      case DisplayName => "display_name"
      case Version => "version"
      case IsCurrent => "is_current"
    }
  }


  /** Which optional fields are present, and their values. */
  datatype Meta = Meta(
    accessList: Option<string>,
    definition: Option<string>,
    displayName: Option<string>,
    version: Option<string>,
    isCurrent: Option<string>)
  {
    function Get(f: Field): Option<string>
    {
      match f
      case AccessList => accessList
      case Definition => definition
      case DisplayName => displayName
      case Version => version
      case IsCurrent => isCurrent
    }
  }

  const NoMeta: Meta := Meta(None, None, None, None, None)

  /** A document of the primary collection, keyed by its `type`: the payload and whichever
      optional fields it carries. */
  datatype Doc = Doc(data: Json, meta: Meta)

  /** The primary document store: unreachable, or the collection as a map from `type`. */
  datatype Primary = Unavailable | Available(docs: map<string, Doc>)

  /** A configuration file: JSON text, or text that does not parse. */
  datatype FileContent = Valid(json: Json) | Malformed

  /** A backup file is named by the configuration and the time it was taken. */
  datatype BackupKey = BackupKey(name: string, stamp: string)

  datatype State = State(
    primary: Primary,
    files: map<string, FileContent>,
    backups: map<BackupKey, FileContent>)

  /** The state after a request and its reply; effects made before a failure remain. */
  datatype Step<+T> = Step(after: State, reply: Result<T, Status>)

  /** The identity of a caller whose token gave no user name. */
  const Anonymous: string := "unknown"
}
