/** Writes to the primary document store: `update_one({"type": name}, {"$set": ...},
    upsert=True)`, and the metadata taken from a request's form fields. */
module PrimaryStore {
  import opened Wrappers
  import opened Json
  import opened Stores

  /** `top` laid over `base`: each field of `top` that is present wins, every other field
      keeps its value in `base`. */
  function Overlay(top: Meta, base: Meta): (r: Meta)
    ensures forall f: Field :: r.Get(f) == if top.Get(f).Some? then top.Get(f) else base.Get(f)
  {
    Meta(
      if top.accessList.Some? then top.accessList else base.accessList,
      if top.definition.Some? then top.definition else base.definition,
      if top.displayName.Some? then top.displayName else base.displayName,
      if top.version.Some? then top.version else base.version,
      if top.isCurrent.Some? then top.isCurrent else base.isCurrent)
  }

  function FormField(form: map<string, string>, f: Field): Option<string>
  {
    if f.Key() in form then Some(form[f.Key()]) else None
  }

  /** The optional fields a caller supplied as form fields; other form fields are ignored. */
  function FormMeta(form: map<string, string>): (r: Meta)
    ensures forall f: Field :: r.Get(f).Some? <==> f.Key() in form
    ensures forall f: Field :: f.Key() in form ==> r.Get(f) == Some(form[f.Key()])
  {
    Meta(FormField(form, AccessList), FormField(form, Definition), FormField(form, DisplayName),
         FormField(form, Version), FormField(form, IsCurrent))
  }

  /** The collection after an upsert, and whether a document was matched (`updated`) rather
      than inserted. */
  datatype Upserted = Upserted(docs: map<string, Doc>, updated: bool)

  /** The document `$set` leaves behind: `data` replaced, each present field of `fields`
      written, every other field of an existing document as it was. */
  function SetDoc(existing: Option<Doc>, data: Json, fields: Meta): (d: Doc)
    ensures d.data == data
    ensures forall f: Field :: fields.Get(f).Some? ==> d.meta.Get(f) == fields.Get(f)
    ensures forall f: Field :: fields.Get(f).None? && existing.Some? ==> d.meta.Get(f) == existing.value.meta.Get(f)
    ensures existing.None? ==> d.meta == fields
  {
    match existing
    case None => Doc(data, fields)
    case Some(prev) => Doc(data, Overlay(fields, prev.meta))
  }

  /** `after` is `before` once `$set` has written `data` and the present fields of `fields`
      to the document of type `name`, creating it when absent: no other document changes,
      and every field `fields` leaves out keeps its earlier value (absent on a new document). */
  ghost predicate SetApplied(before: map<string, Doc>, after: map<string, Doc>, name: string, data: Json, fields: Meta)
  {
    && after.Keys == before.Keys + {name}
    && (forall other :: other in before && other != name ==> after[other] == before[other])
    && after[name].data == data
    && forall f: Field :: after[name].meta.Get(f) ==
         if fields.Get(f).Some? then fields.Get(f)
         else if name in before then before[name].meta.Get(f)
         else None
  }

  /** `update_one` with `$set` and `upsert=True` on the document of type `name`. An
      unreachable store raises, which the handlers report as 400. */
  function Upsert(p: Primary, name: string, data: Json, fields: Meta): (r: Result<Upserted, Status>)
    ensures p.Unavailable? <==> r.Err?
    ensures r.Err? ==> r.error == BadRequest
    ensures r.Ok? ==> r.value.updated == (name in p.docs)
    ensures r.Ok? ==> SetApplied(p.docs, r.value.docs, name, data, fields)
  {
    match p
    case Unavailable => Err(BadRequest)
    case Available(docs) =>
      var existing := if name in docs then Some(docs[name]) else None;
      Ok(Upserted(docs[name := SetDoc(existing, data, fields)], name in docs))
  }

  /** Setting only `type` and `data` on an existing document keeps all of its metadata. */
  lemma SetDataKeepsMeta(p: Primary, name: string, data: Json)
    requires p.Available? && name in p.docs
    ensures Upsert(p, name, data, NoMeta).Ok?
    ensures Upsert(p, name, data, NoMeta).value.docs[name] == Doc(data, p.docs[name].meta)
  {
  }
}
