/** The file backend: one JSON file per configuration, with a timestamped backup taken
    before an overwrite when the caller asks for one. */
module FileBackend {
  import opened Wrappers
  import opened Json
  import opened Stores

  /** Which filesystem call fails during an export, if any. A failed write is one whose
      `open` fails, so the target file is left as it was. */
  datatype IoFault = NoFault | BackupFault | WriteFault

  /** Reads configuration `name` from its file: 404 when there is no file, 400 when its
      text is not JSON, otherwise the parsed value. */
  function ConfigFromFile(files: map<string, FileContent>, name: string): (r: Result<Json, Status>)
    ensures r.Ok? <==> name in files && files[name].Valid?
    ensures r.Ok? ==> files[name] == Valid(r.value)
    ensures name !in files ==> r == Err(NotFound)
    ensures name in files && files[name].Malformed? ==> r == Err(BadRequest)
  {
    if name in files then
      match files[name]
      case Valid(j) => Ok(j)
      case Malformed => Err(BadRequest)
    else
      Err(NotFound)
  }

  /** A backup is taken exactly when one is requested and the file already exists. */
  predicate TakesBackup(st: State, name: string, backup: bool)
  {
    backup && name in st.files
  }

  /** Writes `data` as the file of configuration `name`, first copying an existing file to
      the backup named by `stamp` when `backup` is set. A failed copy fails the call with
      400 before anything is written; a failed write fails it with 400 after the copy. */
  function DumpToFile(st: State, name: string, data: Json, backup: bool, stamp: string, fault: IoFault)
    : (r: Step<()>)
    ensures r.after.primary == st.primary
    ensures r.reply.Ok? <==> fault.NoFault? || (fault.BackupFault? && !TakesBackup(st, name, backup))
    ensures r.reply.Err? ==> r.reply.error == BadRequest && r.after.files == st.files
    ensures r.reply.Ok? ==> r.after.files == st.files[name := Valid(data)]
    ensures TakesBackup(st, name, backup) && !fault.BackupFault? ==>
              r.after.backups == st.backups[BackupKey(name, stamp) := st.files[name]]
    ensures !TakesBackup(st, name, backup) || fault.BackupFault? ==> r.after.backups == st.backups
  {
    if TakesBackup(st, name, backup) && fault.BackupFault? then
      Step(st, Err(BadRequest))
    else
      var saved :=
        if TakesBackup(st, name, backup) then st.(backups := st.backups[BackupKey(name, stamp) := st.files[name]])
        else st;
      if fault.WriteFault? then Step(saved, Err(BadRequest))
      else Step(saved.(files := saved.files[name := Valid(data)]), Ok(()))
  }

  /** Reading a configuration back after a successful export yields exactly the exported
      value, whatever the file held before. */
  lemma DumpThenRead(st: State, name: string, data: Json, backup: bool, stamp: string, fault: IoFault)
    requires DumpToFile(st, name, data, backup, stamp, fault).reply.Ok?
    ensures ConfigFromFile(DumpToFile(st, name, data, backup, stamp, fault).after.files, name) == Ok(data)
    ensures forall other :: other != name ==>
              ConfigFromFile(DumpToFile(st, name, data, backup, stamp, fault).after.files, other)
              == ConfigFromFile(st.files, other)
  {
  }
}
