/** `ubo configure` on the disk (internal/tui/tui.go, Run): load, edit, validate, save. */
module Configure {
  import opened Text
  import opened ConfigModel
  import opened Toml
  import opened TomlRoundTrip
  import opened TomlOverlay
  import opened Editor
  import opened Tunnel
  import opened SaveFile

  /** Whether the file can be looked at and read; a file that cannot be looked at counts as absent. */
  datatype Access = Access(statFails: bool, readFails: bool)

  datatype ConfigureError = LoadFailed | EditFailed | Invalid(e: ConfigError) | SaveFailed

  /** The configuration the editor starts from; None when there is a file that does not load. */
  function Loaded(files: Files, path: Path, access: Access): Option<Settings> {
    if path !in files || access.statFails then Some(DEFAULTS)
    else if access.readFails then None
    else
      match Parse(files[path].data, DEFAULTS)
      case Accepted(st) => Some(st.settings)
      case Rejected(_, _, _) => None
  }

  /** The beginning of Run: config.Load over the defaults, or the defaults for an absent file. */
  method LoadOrDefault(disk: Disk, path: Path, access: Access) returns (cfg: Config, ok: bool)
    ensures fresh(cfg)
    ensures path !in disk.files || access.statFails ==> ok && cfg.Value() == DEFAULTS
    ensures path in disk.files && !access.statFails ==>
              ok == (!access.readFails && Parse(disk.files[path].data, DEFAULTS).Accepted?)
              && (ok ==> cfg.Value() == Parse(disk.files[path].data, DEFAULTS).state.settings)
    ensures ok == Loaded(disk.files, path, access).Some?
    ensures ok ==> cfg.Value() == Loaded(disk.files, path, access).value
  {
    cfg := new Config.Default();
    if path !in disk.files || access.statFails {
      return cfg, true;
    }
    if access.readFails {
      return cfg, false;
    }
    var parsed := ParseToml(disk.files[path].data, cfg);
    return cfg, parsed.Ok?;
  }

  method Run(disk: Disk, path: Path, access: Access, r: LineReader, a: SaveFile.Answers)
    returns (result: Result<(), ConfigureError>)
    requires Possible(disk.files, path, a)
    modifies disk, r
    ensures match Loaded(old(disk.files), path, access)
            case None => result == Err(LoadFailed) && disk.files == old(disk.files)
            case Some(start) =>
              var d := EditAll(FIELDS, old(r.rest), r.broken, start);
              var save := RunSave(old(disk.files), PrintSettings(d.settings), path, a);
              if d.failed then result == Err(EditFailed) && disk.files == old(disk.files)
              else if !Valid(d.settings) then
                result == Err(Invalid(FirstUnmet(d.settings).error)) && disk.files == old(disk.files)
              else result == (if NothingFails(a) then Ok(()) else Err(SaveFailed))
                   && disk.files == Last(old(disk.files), save)
  {
    var cfg, ok := LoadOrDefault(disk, path, access);
    if !ok {
      return Err(LoadFailed);
    }
    ok := Edit(r, cfg, FIELDS);
    if !ok {
      return Err(EditFailed);
    }
    var valid := Validate(cfg.Value());
    if valid.Err? {
      return Err(Invalid(valid.error));
    }
    ok := Save(disk, cfg, path, a);
    if !ok {
      return Err(SaveFailed);
    }
    return Ok(());
  }

  lemma LoadedPrintable(files: Files, path: Path, access: Access)
    requires Loaded(files, path, access).Some?
    ensures Printable(Loaded(files, path, access).value)
  {
    DefaultsPrintable();
    if path in files {
      ParsePrintable(files[path].data, DEFAULTS);
    }
  }

  /** What a run with a valid result leaves on the disk. When no call of the saving fails, the file
      loads as the edited configuration; when one fails, the file is what it was. */
  lemma RunReloads(files: Files, path: Path, access: Access, input: string, broken: bool, a: SaveFile.Answers)
    requires Possible(files, path, a) && (path in files || !LooksTemporary(path))
    requires Loaded(files, path, access).Some?
    requires Valid(Edited(input, broken, Loaded(files, path, access).value))
    ensures var t := Edited(input, broken, Loaded(files, path, access).value);
            var save := RunSave(files, PrintSettings(t), path, a);
            var end := Last(files, save);
            && (save.ok <==> NothingFails(a))
            && if NothingFails(a) then Loaded(end, path, Access(false, false)) == Some(t)
               else At(end, path) == At(files, path)
  {
    var start := Loaded(files, path, access).value;
    var t := Edited(input, broken, start);
    LoadedPrintable(files, path, access);
    EditedReloads(input, broken, start, DEFAULTS);
    var save := RunSave(files, PrintSettings(t), path, a);
    SaveAtomic(files, PrintSettings(t), path);
    assert Atomic(files, PrintSettings(t), path, a, save);
    if NothingFails(a) {
      SavedLoadsBack(files, t, path, a);
    }
  }
}
