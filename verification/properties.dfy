/** Properties that relate several operations: what a read sees after an import, the
    round trip through the file backend, idempotent re-import, and the access that a
    primary-store outage opens up. */
module Properties {
  import opened Wrappers
  import opened Json
  import opened Stores
  import opened FileBackend
  import opened PrimaryStore
  import opened Resolver
  import opened Access
  import opened Handlers
  import opened Validation

  /** An import of a JSON object with an access list naming `names`, followed by a read:
      exactly the listed callers get the imported data back, from the primary store. */
  lemma ImportJsonThenGet(st: State, name: string, form: map<string, string>, codec: Codec,
                          stamp: string, names: seq<string>, user: string)
    requires st.primary.Available?
    requires Payload(form, codec).Some? && Payload(form, codec).value.JObj?
    requires "access_list" in form && EncodesNames(codec, form["access_list"], names)
    ensures var after := ImportJsonConfig(st, name, form, codec, stamp, NoFault).after;
            var got := GetConfig(after, name, user, codec);
            && (got.Ok? <==> user in names)
            && (got.Ok? ==> got.value.config == Payload(form, codec).value && got.value.via == Mongo)
            && (!got.Ok? ==> got == Err(Unauthorized))
  {
  }

  /** Importing the same payload twice: the second import finds the document (`updated`)
      and leaves the primary store and the file exactly as the first one did. */
  lemma ImportJsonTwice(st: State, name: string, form: map<string, string>, codec: Codec, stamp: string)
    requires st.primary.Available? && Payload(form, codec).Some?
    ensures var first := ImportJsonConfig(st, name, form, codec, stamp, NoFault);
            var second := ImportJsonConfig(first.after, name, form, codec, stamp, NoFault);
            && second.reply == Ok(Imported(true))
            && second.after.primary == first.after.primary
            && second.after.files == first.after.files
  {
  }

  /** After a successful import the two backends agree on the configuration: its
      validation reports a match, whatever digest is used. */
  lemma ImportJsonThenValidate(st: State, name: string, form: map<string, string>, codec: Codec,
                               stamp: string, fault: IoFault)
    requires ImportJsonConfig(st, name, form, codec, stamp, fault).reply.Ok?
    ensures var after := ImportJsonConfig(st, name, form, codec, stamp, fault).after;
            && after.primary.Available? && name in after.primary.docs
            && ValidateConfigtype(after.files, name, after.primary.docs[name], codec) == Ok(true)
  {
  }

  /** Exporting and then reading the file back yields the data of the stored document. */
  lemma ExportThenRead(st: State, name: string, user: string, codec: Codec, fault: IoFault)
    requires ExportConfig(st, name, user, codec, fault).reply.Ok?
    ensures PrimaryHit(st, name)
    ensures ConfigFromFile(ExportConfig(st, name, user, codec, fault).after.files, name)
            == Ok(st.primary.docs[name].data)
  {
  }

  /** During an outage every caller reads the file copy: the access list lives only in the
      primary store, so access control is open while failover serves the request. */
  lemma OutageOpensAccess(st: State, name: string, user: string, codec: Codec)
    requires st.primary.Unavailable?
    requires name in st.files && st.files[name].Valid? && st.files[name].json.JObj?
    ensures GetConfig(st, name, user, codec) ==
            Ok(Served(st.files[name].json, File, NoMeta, |st.files[name].json.fields|))
  {
  }

  /** An entry import followed by a read of that entry by a caller the stored access list
      admits: the imported value comes back from the primary store with the metadata the
      document had before the import, or 500 when the value is a number, boolean or null
      (`len` raises on it). */
  lemma ImportEntryThenGetEntry(st: State, name: string, entry: string, form: map<string, string>,
                                codec: Codec, fault: IoFault, user: string)
    requires ImportJsonConfigEntry(st, name, entry, form, codec, fault).reply.Ok?
    requires name in st.primary.docs
    requires AuthenticateAccess(st.primary.docs[name].meta, user, codec) == Ok(true)
    ensures var after := ImportJsonConfigEntry(st, name, entry, form, codec, fault).after;
            var value := Payload(form, codec).value;
            GetConfigEntry(after, name, entry, user, codec) ==
            if Length(value).Some? then Ok(Served(value, Mongo, st.primary.docs[name].meta, Length(value).value))
            else Err(InternalError)
  {
  }

  /** Entry lookup in the configuration `{"a": 1, "b": 2}` served from the primary store
      without an access list: entry "b" is present but `len(2)` raises, so the reply is 500,
      not the value 2; entry "c" is absent, so the reply is 404. */
  lemma EntryLookupOnNumbers(st: State, name: string, user: string, codec: Codec)
    requires PrimaryHit(st, name)
    requires st.primary.docs[name] == Doc(JObj(map["a" := JNum(1), "b" := JNum(2)]), NoMeta)
    ensures GetConfigEntry(st, name, "b", user, codec) == Err(InternalError)
    ensures GetConfigEntry(st, name, "c", user, codec) == Err(NotFound)
  {
  }
}
