/** The consistency check between the primary store and the file backend: every stored
    document's data is compared with its file through a digest of the sorted-key JSON. */
module Validation {
  import opened Wrappers
  import opened Json
  import opened Stores
  import opened FileBackend

  /** The digest of the stored data agrees with the digest of the file's content. */
  predicate DigestsAgree(codec: Codec, doc: Doc, file: Json)
  {
    codec.canon(doc.data) == codec.canon(file)
  }

  /** `validate_configtype`: the file of `name` is read (its 404 or 400 propagates) and its
      digest compared with the digest of the document's data. */
  function ValidateConfigtype(files: map<string, FileContent>, name: string, doc: Doc, codec: Codec)
    : (r: Result<bool, Status>)
    ensures r.Ok? <==> name in files && files[name].Valid?
    ensures r.Err? ==> r == Err(ConfigFromFile(files, name).error)
    ensures r.Ok? ==> r.value == DigestsAgree(codec, doc, files[name].json)
  {
    match ConfigFromFile(files, name)
    case Err(e) => Err(e)
    case Ok(content) => Ok(DigestsAgree(codec, doc, content))
  }

  /** With an injective digest, a configuration validates exactly when its file holds the
      stored data; any other readable content is reported as a mismatch. */
  lemma MatchIffSameData(files: map<string, FileContent>, name: string, doc: Doc, codec: Codec)
    requires Injective(codec.canon)
    requires name in files && files[name].Valid?
    ensures ValidateConfigtype(files, name, doc, codec) == Ok(files[name] == Valid(doc.data))
  {
  }

  /** `order` lists the collection's documents in the order the cursor yields them. */
  predicate Enumerates(order: seq<string>, docs: map<string, Doc>)
  {
    && (forall i :: 0 <= i < |order| ==> order[i] in docs)
    && (forall n :: n in docs ==> n in order)
  }

  /** `get_validations`: an unreachable store fails with 400; otherwise every document is
      validated in cursor order, and the first file that is missing or malformed aborts the
      whole check with its error instead of being recorded as a mismatch. */
  method GetValidations(st: State, codec: Codec, order: seq<string>) returns (r: Result<map<string, bool>, Status>)
    requires st.primary.Available? ==> Enumerates(order, st.primary.docs)
    ensures st.primary.Unavailable? ==> r == Err(BadRequest)
    ensures st.primary.Available? ==>
              (r.Ok? <==> forall n :: n in st.primary.docs ==> n in st.files && st.files[n].Valid?)
    ensures r.Ok? ==>
              && st.primary.Available?
              && r.value.Keys == st.primary.docs.Keys
              && forall n :: n in r.value ==> r.value[n] == DigestsAgree(codec, st.primary.docs[n], st.files[n].json)
    ensures st.primary.Available? && r.Err? ==>
              exists i :: 0 <= i < |order| &&
                (forall j :: 0 <= j < i ==> ValidateConfigtype(st.files, order[j], st.primary.docs[order[j]], codec).Ok?) &&
                ValidateConfigtype(st.files, order[i], st.primary.docs[order[i]], codec) == Err(r.error)
  {
    if st.primary.Unavailable? {
      return Err(BadRequest);
    }
    var docs := st.primary.docs;
    var results: map<string, bool> := map[];
    var i := 0;
    while i < |order|
      invariant 0 <= i <= |order|
      invariant results.Keys == set j | 0 <= j < i :: order[j]
      invariant forall j :: 0 <= j < i ==> ValidateConfigtype(st.files, order[j], docs[order[j]], codec).Ok?
      invariant forall n :: n in results ==>
                  (n in st.files && st.files[n].Valid? && results[n] == DigestsAgree(codec, docs[n], st.files[n].json))
    {
      var v := ValidateConfigtype(st.files, order[i], docs[order[i]], codec);
      if v.Err? {
        return Err(v.error);
      }
      results := results[order[i] := v.value];
      i := i + 1;
    }
    return Ok(results);
  }
}
