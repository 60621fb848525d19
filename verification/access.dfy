/** The access gate: a resolved configuration that carries an `access_list` is visible
    only to the identities the list names. */
module Access {
  import opened Wrappers
  import opened Json
  import opened Stores

  /** `authenticate_access`: no access list grants every caller; otherwise the stored text
      is parsed and Python's `user in parsed` decides. Text that does not parse, or parses
      to a value `in` cannot search, raises an uncaught exception (500). */
  function AuthenticateAccess(meta: Meta, user: string, codec: Codec): (r: Result<bool, Status>)
    ensures meta.accessList.None? ==> r == Ok(true)
    // the gate raises exactly when the list does not parse or cannot be searched
    ensures meta.accessList.Some? ==>
              (r.Err? <==> codec.parse(meta.accessList.value).None? ||
                           Contains(codec.parse(meta.accessList.value).value, user).None?)
    ensures r.Err? ==> r.error == InternalError
    // an array admits its string elements, an object its keys, a string its substrings
    ensures meta.accessList.Some? && codec.parse(meta.accessList.value).Some? ==>
              var list := codec.parse(meta.accessList.value).value;
              && (list.JArr? ==> r == Ok(JStr(user) in list.items))
              && (list.JObj? ==> r == Ok(user in list.fields))
              && (list.JStr? ==> r == Ok(IsSubstring(user, list.s)))
  {
    match meta.accessList
    case None => Ok(true)
    case Some(text) =>
      match codec.parse(text)
      case None => Err(InternalError)
      case Some(list) =>
        match Contains(list, user)
        case None => Err(InternalError)
        case Some(member) => Ok(member)
  }

  /** The access list `text` is the JSON array of the strings `names`. */
  predicate EncodesNames(codec: Codec, text: string, names: seq<string>)
  {
    codec.parse(text) == Some(JArr(StrArray(names)))
  }

  /** With an access list naming `names`, a caller is authorized exactly when it is one of
      them. */
  lemma AuthorizedIffListed(meta: Meta, user: string, codec: Codec, names: seq<string>)
    requires meta.accessList.Some? && EncodesNames(codec, meta.accessList.value, names)
    ensures AuthenticateAccess(meta, user, codec) == Ok(user in names)
  {
  }

  /** A caller whose token gave no user name is identified as "unknown", and so passes
      every access list that names "unknown". */
  lemma AnonymousPassesUnknownEntry(meta: Meta, codec: Codec, names: seq<string>)
    requires meta.accessList.Some? && EncodesNames(codec, meta.accessList.value, names)
    requires "unknown" in names
    ensures AuthenticateAccess(meta, Anonymous, codec) == Ok(true)
  {
  }
}
